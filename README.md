# Product salability and product data post-processing, modelled in Dafny

This project models the inventory core of the ScandiPWA performance module for Magento 2. The core answers two questions for the products of a GraphQL request.

**Is a SKU salable on the website's stock?** The `stock_status` resolver queues every SKU while GraphQL builds its arguments. The first batch to execute runs the salability condition chain once over the whole queue. Every batch then answers its own requests by position. The `stock_item` resolver shares the queue pattern and answers from the legacy stock items.

The chain works as follows:
- It validates its configuration.
- It sorts its conditions by `sort_order`.
- Required conditions veto a SKU.
- Optional conditions, cheapest first, grant it.
- A SKU that no optional condition grants is not salable.

The five conditions are manage stock, back orders, any source item in stock, the stock flag of composite products, and quantity with reservations. They read their data through loaders that memoise per request: product ids by SKU, legacy stock items, stock assignment, stock item data, stock item configurations and reservation sums. Each loader answers cache hits and loads the misses in one batch.

**What does each listed product carry?** The data post-processor asks every configured processor once for a callback. It then builds each product's data array and hands it to the callbacks in order.
- The stock processor writes `stock_status` and `only_x_left_in_stock`.
- The attribute processor writes `s_attributes`. It chooses the attributes the page shows and gives each one its group and value. When the query asks for options, it adds the options the value selects.
- Which fields the query asks for comes from a walk over the query's selection tree (`ResolveInfoFieldsTrait`).

The database, the configuration and the request's website are one immutable `Store` value. Every SQL query is a function over it. Each loader is a class with a cache map and a ghost load counter. Its `Execute` method is proved to return the store's answer whatever the cache holds. It is also proved to load nothing when every SKU is cached, and one batch otherwise. Loops of the source are `while` loops proved against recursive specification functions. The properties of those functions are proved as lemmas.

Where the code and its surrounding documentation disagree, the model follows the code:
- The composite-product condition passes a SKU whose quantities are kept per source. It reads the legacy stock flag only for the others.
- `GetStockItemsData` tests its cache with `isset`, so a SKU cached as "no data" (null) is loaded again on the next request.
- When `only_x_left_in_stock` is not requested, the stock processor keeps the threshold as the integer `0`. `0 !== (float) 0` holds, so a quantity at or below zero is still reported under `only_x_left_in_stock`. When the threshold is configured as `0.0`, it never reports a count.
- `appendWithValue` writes a value for every collected attribute code whose value on the product is not null. This includes codes shown only in other attribute sets, so a product can get an entry with a value and no description.
- `sortConditions` is modelled as a stable sort. This assumes PHP 8.0 or later, where `usort` is stable.

## Model

| member | source | states |
|---|---|---|
| ProductIds.FoundIds | src/Model/Inventory/GetProductIdsBySkus.php:37 | the batch lookup has a key for exactly those requested SKUs the catalog has |
| ProductIds.GetProductIdsBySkus | src/Model/Inventory/GetProductIdsBySkus.php:35-46 | one key per requested SKU; its value is the catalog's entity id, or null for a SKU the catalog does not have |
| ProductIds.CachedId | src/Model/Inventory/GetProductIdsBySkusCache.php:63-66 | the `(int)` cast the cache applies yields 0 exactly when the SKU is unknown (or its id is 0) |
| ProductIds.UnknownSkuReadsAsZero | src/Model/Inventory/GetProductIdsBySkusCache.php:39-66 | for a SKU the catalog does not have, the uncached lookup says null but the cache answers 0, an id no product of a well-formed catalog has |
| ProductIds.ProductIdsBySkusCache.constructor | src/Model/Inventory/GetProductIdsBySkusCache.php:31-37 | starts from a shared storage whose entries agree with the catalog |
| ProductIds.ProductIdsBySkusCache.Execute | src/Model/Inventory/GetProductIdsBySkusCache.php:44-70 | as written: one key per requested SKU holding the cast id; every requested SKU ends up stored; at most one batch lookup, none when every SKU is stored |
| ProductIds.CorrectedProductIdsBySkusCache.constructor | src/Model/Inventory/GetProductIdsBySkusCache.php:31-37 | starts from a storage holding only real ids |
| ProductIds.CorrectedProductIdsBySkusCache.Execute | src/Model/Inventory/GetProductIdsBySkusCache.php:39-70 | corrected: answers exactly what the uncached lookup answers (null for an unknown SKU); stores only SKUs the catalog has; at most one batch lookup |
| Store.ProductIdOf | src/Model/Inventory/GetProductIdsBySkus.php:37-45 | the id of a SKU is present exactly when the catalog has the SKU |
| Store.LastStatus | src/Model/Inventory/GetStockItemsData.php:175-180 | the data a product ends with comes from one of its status rows, and a product with a status row always gets data |
| Store.LastIndex | src/Model/Inventory/GetStockItemsData.php:175-186 | the data a SKU ends with comes from one of its index rows, and a SKU with an index row always gets data |
| Store.LastItem | src/Model/Inventory/GetStockItemsData.php:269-274 | the row found matches the product (and stock) and is a row of the table; a row is found whenever one matches |
| Store.SelectStatus | src/Model/Inventory/GetStockItemsData.php:149-159 | `product_id IN (...)` keeps exactly the rows of the listed products |
| Store.LastStatusSelected | src/Model/Inventory/GetStockItemsData.php:149-180 | selecting rows of a set of products keeps the last row of each of them |
| Store.SelectIndex | src/Model/Inventory/GetStockItemsData.php:161-171 | `sku IN (...)` keeps exactly the index rows of the listed SKUs |
| Store.LastIndexSelected | src/Model/Inventory/GetStockItemsData.php:161-186 | selecting index rows of a set of SKUs keeps the last row of each of them |
| Store.SelectItems | src/Model/Inventory/GetStockItemsData.php:257-267 | keeps exactly the stock item rows of the listed products (of the given stock when one is given) |
| Store.LastItemSelected | src/Model/Inventory/GetStockItemsData.php:257-274 | selecting stock item rows of a set of products keeps the last row of each of them |
| RequestCache.NonNullKeys | src/Model/Inventory/GetStockItemsData.php:99 | `isset` accepts exactly the cached entries that are not null |
| RequestCache.SplitByCache | src/Model/Inventory/GetStockItemsData.php:98-105 | the hits are the requested SKUs that are hit keys, with the cached answer; the misses are the other requested SKUs; no miss iff every SKU is a hit |
| RequestCache.Merge | src/Model/Inventory/GetStockItemsData.php:110-113 | after storing the loaded answers under the stock, the cache holds the loaded answer for each loaded SKU and every other entry unchanged |
| StockItemsData.StockDataFor | src/Model/Inventory/GetStockItemsData.php:126-214 | a non-default stock is answered by its index table alone; a SKU unknown to the catalog has no data on the default stock; data the main query lacks comes from the fallback only where the fallback applies; a known SKU with a status row on the default stock gets that row's data, and one with a legacy row gets data where the fallback applies |
| StockItemsData.FileStatusBySku | src/Model/Inventory/GetStockItemsData.php:175-180 | every found SKU with a status row gets the data of its product's last row, and no other SKU gets data |
| StockItemsData.FileIndexBySku | src/Model/Inventory/GetStockItemsData.php:175-186 | every SKU gets the data of its last index row, and only SKUs with a row get data |
| StockItemsData.GetStockItemsData.constructor | src/Model/Inventory/GetStockItemsData.php:68-82 | starts with an empty cache |
| StockItemsData.GetStockItemsData.Execute | src/Model/Inventory/GetStockItemsData.php:93-117 | one key per requested SKU holding the SKU's stock data whatever the cache held; fails iff there are SKUs and the stock has no index table; one batch load unless every SKU has a non-null cached entry; a failure leaves the cache alone; a success caches every requested SKU |
| StockItemsData.GetStockItemsData.NoHitsWithoutIndexTable | src/Model/Inventory/GetStockItemsData.php:99-108 | a stock without an index table never has a non-null cached entry, so asking it for any SKU loads and fails |
| StockItemsData.GetStockItemsData.GetStockItems | src/Model/Inventory/GetStockItemsData.php:126-214 | fails iff the stock is not the default one and has no index table; otherwise one key per SKU holding its stock data |
| StockItemsData.GetStockItemsData.QueryStockStatus | src/Model/Inventory/GetStockItemsData.php:137-159 | on the default stock every SKU gets the data of its product's last status row, or none |
| StockItemsData.GetStockItemsData.QueryStockIndex | src/Model/Inventory/GetStockItemsData.php:160-186 | on another stock every SKU gets the data of its last index row, or none |
| StockItemsData.GetStockItemsData.GetStockItemDataFromStockItemTable | src/Model/Inventory/GetStockItemsData.php:223-277 | every SKU gets the legacy stock item data where the fallback applies and the catalog has the SKU, and none otherwise |
| StockItemsData.GetStockItemsData.SkusToCheck | src/Model/Inventory/GetStockItemsData.php:231-241 | the distinct requested SKUs the fallback applies to |
| StockItemsData.SkusWithoutData | src/Model/Inventory/GetStockItemsData.php:197-203 | exactly the requested SKUs the main query left without data |
| LegacyStockItems.LegacyItemFor | src/Model/Inventory/GetLegacyStockItems.php:102-139 | an unknown SKU gets a new item with stock management on; a known SKU gets a legacy item of its product on the legacy default stock whenever one exists, else a new item |
| LegacyStockItems.FileItemsBySku | src/Model/Inventory/GetLegacyStockItems.php:128-130 | every found SKU with a row gets its product's last row, and no other SKU gets one |
| LegacyStockItems.LegacyStockItems.constructor | src/Model/Inventory/GetLegacyStockItems.php:52-62 | starts with an empty cache |
| LegacyStockItems.LegacyStockItems.Execute | src/Model/Inventory/GetLegacyStockItems.php:70-94 | one item per requested SKU, the item the repository gives whatever the cache held; every requested SKU ends up cached; one batch load unless every SKU is cached |
| LegacyStockItems.LegacyStockItems.GetLegacyStockItems | src/Model/Inventory/GetLegacyStockItems.php:102-139 | one item per requested SKU: the new managed item for an unknown SKU, the last legacy default-stock row of a known one, else a new item |
| AssignedToStock.AssignedSkus | src/Model/Inventory/AreProductsAssignedToStock.php:86-103 | the join returns exactly the requested SKUs with a source item on a source linked to the stock |
| AssignedToStock.AreProductsAssignedToStock.constructor | src/Model/Inventory/AreProductsAssignedToStock.php:34-38 | starts with an empty cache |
| AssignedToStock.AreProductsAssignedToStock.Execute | src/Model/Inventory/AreProductsAssignedToStock.php:46-70 | one answer per requested SKU, true iff the SKU is assigned to the stock, whatever the cache held; every requested SKU ends up cached for the stock; one query unless every SKU is cached (a cached false is a hit) |
| AssignedToStock.AreProductsAssignedToStock.GetAreProductsAssignedToStock | src/Model/Inventory/AreProductsAssignedToStock.php:78-112 | one answer per requested SKU: true iff the SKU is assigned to the stock |
| Reservations.SumWithoutReservations | src/Model/Inventory/GetReservationsQuantities.php:82-102 | a SKU with no reservation on the stock sums to 0, so the `(float)0` default and the grouped SUM agree |
| Reservations.SumConcat | src/Model/Inventory/GetReservationsQuantities.php:92 | `SUM(quantity)` over two batches of rows is the sum of the two sums |
| Reservations.SumIgnoresOtherRows | src/Model/Inventory/GetReservationsQuantities.php:89-98 | a reservation of another SKU or stock, at any position among the rows, does not change a SKU's sum |
| Reservations.ReservationRows | src/Model/Inventory/GetReservationsQuantities.php:89-100 | the grouped query returns a row for exactly the requested SKUs with a reservation on the stock |
| Reservations.GetReservationsQuantities.constructor | src/Model/Inventory/GetReservationsQuantities.php:31-35 | starts with an empty cache |
| Reservations.GetReservationsQuantities.Execute | src/Model/Inventory/GetReservationsQuantities.php:45-69 | one sum per requested SKU, the SUM of its reservations on the stock whatever the cache held; every requested SKU ends up cached; one query unless every SKU is cached |
| Reservations.GetReservationsQuantities.GetReservationsData | src/Model/Inventory/GetReservationsQuantities.php:78-105 | one sum per requested SKU: the SUM of its reservations on the stock, 0 when it has none |
| StockItemsConfigurations.DefaultStockAlwaysConfigured | src/Model/Inventory/GetStockItemsConfigurations.php:87-96 | on the default stock no SKU is short-circuited to `false` |
| StockItemsConfigurations.UnmanagedAlwaysConfigured | src/Model/Inventory/GetStockItemsConfigurations.php:87-111 | a SKU whose quantities are not kept per source always gets the configuration of its legacy item, flagged by its `is_in_stock` |
| StockItemsConfigurations.SplitNotAssigned | src/Model/Inventory/GetStockItemsConfigurations.php:85-96 | exactly the requested SKUs that are source-managed and not assigned to a non-default stock get `false` and leave the list to check |
| StockItemsConfigurations.GetStockItemsConfigurations.constructor | src/Model/Inventory/GetStockItemsConfigurations.php:59-73 | the two loaders share one store |
| StockItemsConfigurations.GetStockItemsConfigurations.Execute | src/Model/Inventory/GetStockItemsConfigurations.php:78-114 | one entry per requested SKU: `false` for an unassigned source-managed SKU on a non-default stock, otherwise the legacy item's configuration with `is_in_stock` as a boolean; each loader is asked at most once |
| ManageStockCondition.DecideManageStock | src/Model/Inventory/AreProductsSalableCondition/ManageStockCondition.php:51-63 | one answer per configuration: `false` without a configuration; with "use config manage stock" true iff the global setting is not 1; otherwise true iff the item does not manage stock |
| ManageStockCondition.ManageStockCondition.constructor | src/Model/Inventory/AreProductsSalableCondition/ManageStockCondition.php:32-38 | wraps a valid configuration loader |
| ManageStockCondition.ManageStockCondition.Execute | src/Model/Inventory/AreProductsSalableCondition/ManageStockCondition.php:45-66 | one answer per requested SKU: whether the SKU's configuration on the stock leaves stock unmanaged |
| BackOrderCondition.DecideBackOrders | src/Model/Inventory/AreProductsSalableCondition/BackOrderCondition.php:43-56 | one answer per configuration: true iff there is a configuration whose back orders are not BACKORDERS_NO and whose minimum quantity is not negative |
| BackOrderCondition.BackOrderCondition.constructor | src/Model/Inventory/AreProductsSalableCondition/BackOrderCondition.php:26-30 | wraps a valid configuration loader |
| BackOrderCondition.BackOrderCondition.Execute | src/Model/Inventory/AreProductsSalableCondition/BackOrderCondition.php:37-59 | one answer per requested SKU: whether the SKU's configuration on the stock accepts back orders |
| AnySourceItemInStockCondition.EnabledCodes | src/Model/Inventory/AreProductsSalableCondition/IsAnySourceItemInStockCondition.php:150-158 | a code is listed exactly when some enabled source of the stock has it; no more codes than sources |
| AnySourceItemInStockCondition.SourceCodesAssignedToStock | src/Model/Inventory/AreProductsSalableCondition/IsAnySourceItemInStockCondition.php:147-159 | the codes of the stock's enabled sources, in priority order |
| AnySourceItemInStockCondition.SelectInStock | src/Model/Inventory/AreProductsSalableCondition/IsAnySourceItemInStockCondition.php:120-128 | keeps exactly the source items of the listed SKUs that are in stock on one of the listed sources |
| AnySourceItemInStockCondition.FalseSkus | src/Model/Inventory/AreProductsSalableCondition/IsAnySourceItemInStockCondition.php:100-107 | the distinct SKUs whose manage-stock answer is false |
| AnySourceItemInStockCondition.MarkUnmanaged | src/Model/Inventory/AreProductsSalableCondition/IsAnySourceItemInStockCondition.php:109-116 | a SKU to check whose quantities are not kept per source becomes true and leaves the list; every other answer and SKU is kept |
| AnySourceItemInStockCondition.MarkInStock | src/Model/Inventory/AreProductsSalableCondition/IsAnySourceItemInStockCondition.php:131-133 | a SKU with a fetched row becomes true; every other answer is kept |
| AnySourceItemInStockCondition.IsAnySourceItemInStockCondition.constructor | src/Model/Inventory/AreProductsSalableCondition/IsAnySourceItemInStockCondition.php:71-87 | wraps a valid manage-stock condition |
| AnySourceItemInStockCondition.IsAnySourceItemInStockCondition.Execute | src/Model/Inventory/AreProductsSalableCondition/IsAnySourceItemInStockCondition.php:96-136 | one answer per requested SKU: true iff its stock is not managed, or its quantities are not kept per source, or an enabled source of the stock has it in stock |
| CompositeInStockCondition.CompositeUsesLegacyFlag | src/Model/Inventory/AreProductsSalableCondition/IsSetInStockStatusForCompositeProductsCondition.php:43-66 | a SKU whose quantities are kept per source passes; any other SKU passes iff its legacy stock item is flagged in stock, on every stock |
| CompositeInStockCondition.SplitManaged | src/Model/Inventory/AreProductsSalableCondition/IsSetInStockStatusForCompositeProductsCondition.php:46-53 | exactly the per-source SKUs get true and leave the list to check |
| CompositeInStockCondition.TakeInStockFlags | src/Model/Inventory/AreProductsSalableCondition/IsSetInStockStatusForCompositeProductsCondition.php:57-63 | each configured SKU takes its configuration's `is_in_stock`, or false without one; other answers are kept |
| CompositeInStockCondition.IsSetInStockStatusForCompositeProductsCondition.constructor | src/Model/Inventory/AreProductsSalableCondition/IsSetInStockStatusForCompositeProductsCondition.php:32-38 | wraps a valid configuration loader |
| CompositeInStockCondition.IsSetInStockStatusForCompositeProductsCondition.Execute | src/Model/Inventory/AreProductsSalableCondition/IsSetInStockStatusForCompositeProductsCondition.php:43-66 | one answer per requested SKU: true for a per-source SKU, otherwise its configuration's `is_in_stock` (false without a configuration) |
| ReservationsCondition.ReservationRuleChecked | src/Model/Inventory/AreProductsSalableCondition/AreSalableWithReservationsCondition.php:108-111 | for a SKU that needs the check, salable iff quantity plus reservations exceeds the configuration's minimum quantity |
| ReservationsCondition.DecideWithoutReservations | src/Model/Inventory/AreProductsSalableCondition/AreSalableWithReservationsCondition.php:81-101 | a SKU without stock data gets false, a SKU that is not per-source gets its `is_salable` flag; exactly the per-source SKUs with data remain to check |
| ReservationsCondition.CompareWithReservations | src/Model/Inventory/AreProductsSalableCondition/AreSalableWithReservationsCondition.php:108-111 | each configured SKU gets quantity plus reservations > minimum quantity; other answers are kept |
| ReservationsCondition.AreSalableWithReservationsCondition.constructor | src/Model/Inventory/AreProductsSalableCondition/AreSalableWithReservationsCondition.php:59-71 | the three loaders share one store |
| ReservationsCondition.AreSalableWithReservationsCondition.CheckReservations | src/Model/Inventory/AreProductsSalableCondition/AreSalableWithReservationsCondition.php:103-112 | the SKUs to check get the reservation rule's answer and every other answer is kept |
| ReservationsCondition.AreSalableWithReservationsCondition.Execute | src/Model/Inventory/AreProductsSalableCondition/AreSalableWithReservationsCondition.php:78-115 | fails iff the stock data load fails; otherwise one answer per SKU: false without stock data, the `is_salable` flag for a SKU not kept per source, else quantity plus reservations > minimum quantity; configurations and reservations are not loaded when no SKU needs the check |
| ConditionChain.FirstErrorNone | src/Model/Inventory/AreProductsSalableConditionChain.php:68-85 | validation passes iff no entry lacks its object, lacks a sort order while not required, or holds a non-condition |
| ConditionChain.ValidateConditions | src/Model/Inventory/AreProductsSalableConditionChain.php:68-85 | the error of the first failing entry, tested in the order object, sort order, interface; none when every entry passes |
| ConditionChain.UnrequiredEntries | src/Model/Inventory/AreProductsSalableConditionChain.php:45-50 | exactly the entries whose `required` is not set |
| ConditionChain.RequiredEntries | src/Model/Inventory/AreProductsSalableConditionChain.php:54-59 | exactly the entries whose `required` is set and true; one set to false is in neither list |
| ConditionChain.Objects | src/Model/Inventory/AreProductsSalableConditionChain.php:52-61 | `array_column(..., 'object')`: the entries' conditions, position by position |
| ConditionChain.Insert | src/Model/Inventory/AreProductsSalableConditionChain.php:91-102 | inserting keeps the entries as a multiset and adds one |
| ConditionChain.AppendSorted | src/Model/Inventory/AreProductsSalableConditionChain.php:91-102 | appending an entry whose sort order is not smaller than any keeps the list sorted |
| ConditionChain.InsertSorted | src/Model/Inventory/AreProductsSalableConditionChain.php:91-102 | inserting into a sorted list keeps it sorted and adds exactly the entry |
| ConditionChain.SortConditions | src/Model/Inventory/AreProductsSalableConditionChain.php:91-102 | the sort is a permutation of the entries |
| ConditionChain.SortConditionsSorted | src/Model/Inventory/AreProductsSalableConditionChain.php:91-102 | the sorted list is in ascending sort order and has the same entries |
| ConditionChain.WithKey | src/Model/Inventory/AreProductsSalableConditionChain.php:91-102 | the entries with one sort order, in list order |
| ConditionChain.WithKeyAppend | src/Model/Inventory/AreProductsSalableConditionChain.php:91-102 | the entries of one sort order in a concatenation are those of each part, in order |
| ConditionChain.InsertStable | src/Model/Inventory/AreProductsSalableConditionChain.php:91-102 | inserting an entry appends it after the entries of equal sort order |
| ConditionChain.SortConditionsStable | src/Model/Inventory/AreProductsSalableConditionChain.php:91-102 | entries with equal sort order keep their configured order (PHP 8.0 or later, where `usort` is stable) |
| ConditionChain.SalableConditions.constructor | src/Model/Inventory/AreProductsSalableConditionChain.php:31-35 | the five conditions share one set of request-scoped loaders |
| ConditionChain.SalableConditions.Run | src/Model/Inventory/AreProductsSalableConditionChain.php:120-133 | one answer per SKU of the batch, the condition's rule; only the reservation condition fails, on a non-empty batch for a stock without index table |
| ConditionChain.AllBeforeStep | src/Model/Inventory/AreProductsSalableConditionChain.php:119-128 | a SKU passes the first k+1 required conditions iff it passes the first k and the next |
| ConditionChain.AnyBeforeStep | src/Model/Inventory/AreProductsSalableConditionChain.php:132-141 | a SKU is granted by one of the first k+1 optional conditions iff by one of the first k or by the next |
| ConditionChain.DefaultResults | src/Model/Inventory/AreProductsSalableConditionChain.php:111-114 | every requested SKU starts at false |
| ConditionChain.DropFalse | src/Model/Inventory/AreProductsSalableConditionChain.php:122-127 | a SKU a required condition answers false is final false and leaves the working set; the others stay |
| ConditionChain.KeepTrue | src/Model/Inventory/AreProductsSalableConditionChain.php:135-140 | a SKU an optional condition answers true is final true and leaves the working set; the others stay |
| ConditionChain.AreProductsSalableConditionChain.constructor | src/Model/Inventory/AreProductsSalableConditionChain.php:31-62 | the required conditions in configured order, the optional ones sorted by sort order |
| ConditionChain.AreProductsSalableConditionChain.Create | src/Model/Inventory/AreProductsSalableConditionChain.php:31-85 | construction fails iff validation fails, with the first entry's error |
| ConditionChain.AreProductsSalableConditionChain.RunRequired | src/Model/Inventory/AreProductsSalableConditionChain.php:117-128 | the working set after the required conditions is exactly the SKUs every required condition accepts; each condition receives exactly the SKUs all earlier ones accepted |
| ConditionChain.AreProductsSalableConditionChain.RunOptional | src/Model/Inventory/AreProductsSalableConditionChain.php:132-141 | each optional condition receives exactly the SKUs no earlier one granted; a SKU ends true iff every required and some optional condition accept it |
| ConditionChain.AreProductsSalableConditionChain.Execute | src/Model/Inventory/AreProductsSalableConditionChain.php:107-144 | one answer per requested SKU: true iff every required condition and at least one optional condition accept it; records the batch each condition received; fails iff the reservation condition meets a stock without index table |
| DeferredQueue.Enqueue | src/Model/Resolver/Products/StockStatus/AreProductsSalable.php:128-133 | a SKU joins the end of the queue iff it has no result and is not already waiting; the queue stays duplicate-free and disjoint from the results |
| DeferredQueue.IndexesBySku | src/Model/Resolver/Products/StockStatus/AreProductsSalable.php:78-82 | every position of the request is listed under its SKU, and only its own positions are |
| DeferredQueue.ResultsByIndex | src/Model/Resolver/Products/StockStatus/AreProductsSalable.php:84-88 | every position of the request gets the stored result of its SKU, or null when there is none |
| StockStatusField.RecordResults | src/Model/Resolver/Products/StockStatus/AreProductsSalable.php:103-111 | each SKU the chain answered gets a result with its SKU, the stock and the verdict; other results are kept |
| StockStatusField.AreProductsSalable.constructor | src/Model/Resolver/Products/StockStatus/AreProductsSalable.php:49-57 | starts with an empty queue and no results |
| StockStatusField.AreProductsSalable.AddSkuToQueue | src/Model/Resolver/Products/StockStatus/AreProductsSalable.php:128-133 | the queue after `addSkuToQueue`, keeping every stored result the chain's verdict |
| StockStatusField.AreProductsSalable.ProcessQueue | src/Model/Resolver/Products/StockStatus/AreProductsSalable.php:96-114 | the whole queue is decided by one chain run; afterwards the queue is empty and every queued SKU has its verdict stored |
| StockStatusField.AreProductsSalable.Execute | src/Model/Resolver/Products/StockStatus/AreProductsSalable.php:63-91 | processes a non-empty queue first; every request position gets the chain's verdict for its SKU when the SKU was queued or processed, null otherwise |
| StockStatusField.StockStatusResolver.constructor | src/Model/Resolver/Products/StockStatus.php:27-30 | wraps the shared batch service |
| StockStatusField.StockStatusResolver.ConvertToServiceArgument | src/Model/Resolver/Products/StockStatus.php:43-52 | the product's SKU is queued (or already has a result) and is the request's criteria; no result changes |
| StockStatusField.ConvertFromServiceResult | src/Model/Resolver/Products/StockStatus.php:57-62 | IN_STOCK iff the verdict is salable, else OUT_OF_STOCK |
| StockItemField.RecordItems | src/Model/Resolver/Products/StockItem/GetStockItem.php:95-97 | each loaded item is stored under its SKU; other stored items are kept |
| StockItemField.GetStockItem.constructor | src/Model/Resolver/Products/StockItem/GetStockItem.php:42-48 | starts with an empty queue and no results |
| StockItemField.GetStockItem.AddSkuToQueue | src/Model/Resolver/Products/StockItem/GetStockItem.php:114-119 | the queue after `addSkuToQueue`, keeping every stored item the SKU's legacy stock item |
| StockItemField.GetStockItem.ProcessQueue | src/Model/Resolver/Products/StockItem/GetStockItem.php:87-100 | the whole queue is loaded by one call of the legacy loader; afterwards the queue is empty and every queued SKU has its item stored |
| StockItemField.GetStockItem.Execute | src/Model/Resolver/Products/StockItem/GetStockItem.php:54-82 | processes a non-empty queue first; every request position gets its SKU's legacy stock item when the SKU was queued or processed, null otherwise; at most one legacy load |
| StockItemField.StockItemResolver.constructor | src/Model/Resolver/Products/StockItem.php:28-31 | wraps the shared batch service |
| StockItemField.StockItemResolver.ConvertToServiceArgument | src/Model/Resolver/Products/StockItem.php:44-53 | the product's SKU is queued (or already has an item) and is the request's criteria; no stored item changes |
| StockItemField.ConvertFromServiceResult | src/Model/Resolver/Products/StockItem.php:60-69 | the item's minimum and maximum sale quantities, and its quantity increment or 1 when it has none |
| ResolveInfoFields.Explode | src/Model/Resolver/ResolveInfoFieldsTrait.php:53 | `explode('/', $path)` yields at least one piece and no piece holds the separator |
| ResolveInfoFields.ImplodeExplode | src/Model/Resolver/ResolveInfoFieldsTrait.php:53 | joining the pieces of a path with the separator gives back the path, so the split loses nothing |
| ResolveInfoFields.NamedFields | src/Model/Resolver/ResolveInfoFieldsTrait.php:22-35 | the collected names are exactly the names of the named selections (unnamed ones skipped), no more entries than selections |
| ResolveInfoFields.CollectNamedFields | src/Model/Resolver/ResolveInfoFieldsTrait.php:26-32 | the loop over the selections returns the named-selection list of the node |
| ResolveInfoFields.StockNames | src/Model/Resolver/Products/DataPostProcessor/Stocks.php:74-95 | only `only_x_left_in_stock` and `stock_status` are kept, each one selected is kept, and each kept one was selected |
| ResolveInfoFields.CollectStockFields | src/Model/Resolver/Products/DataPostProcessor/Stocks.php:82-92 | the loop returns the stock-field list of the node |
| ResolveInfoFields.FirstNamed | src/Model/Resolver/Products/DataPostProcessor/Attributes.php:105-114 | the search finds a selection with the name, or reports that none has it; unnamed selections never match |
| ResolveInfoFields.AllNames | src/Model/Resolver/Products/DataPostProcessor/Attributes.php:118-122 | one entry per selection under `s_attributes`, in order, null for an unnamed one |
| ResolveInfoFields.AttributeNames | src/Model/Resolver/Products/DataPostProcessor/Attributes.php:101-125 | nothing without an `s_attributes` selection; otherwise one name per selection under the first one (nothing for a leaf) |
| ResolveInfoFields.CollectAttributeFields | src/Model/Resolver/Products/DataPostProcessor/Attributes.php:101-125 | the search loop with `break` and the copy loop return the attribute-field list of the node |
| ResolveInfoFields.CollectFieldContent | src/Model/Resolver/ResolveInfoFieldsTrait.php:22-35 | the collector in use (the trait's or an override) returns its field list for the node |
| ResolveInfoFields.FindSelection | src/Model/Resolver/ResolveInfoFieldsTrait.php:67-73 | the second-level loop stops at the first selection named like the second path piece |
| ResolveInfoFields.GetFieldsFromProductInfo | src/Model/Resolver/ResolveInfoFieldsTrait.php:44-77 | the nested search with early returns gives the content of the first top-level node matching the path that settles it, or nothing |
| ResolveInfoFields.ExtraPiecesIgnored | src/Model/Resolver/ResolveInfoFieldsTrait.php:53-73 | a path of three or more pieces is looked up as its first two pieces |
| ResolveInfoFields.UnmatchedPathIsEmpty | src/Model/Resolver/ResolveInfoFieldsTrait.php:55-59 | with no top-level node named like the first piece the result is the empty list of line 76 |
| ResolveInfoFields.SinglePieceTakesFirstMatch | src/Model/Resolver/ResolveInfoFieldsTrait.php:55-64 | a one-piece path yields the content of the first top-level node with that name, or nothing when none has it |
| ProductData.Apply | src/Model/Resolver/Products/DataPostProcessor/Stocks.php:170-184 | a callback changes nothing for data without its `entity_id`, keeps every key it does not write, adds no other key, and writes all its keys when the id is its own |
| ProductData.LastProduct | src/Model/Resolver/Products/DataPostProcessor.php:66-68 | the product whose data a product id ends with is a product of the list with that id; none exactly when no product has it |
| ProductData.InitialData | src/Model/Resolver/Products/DataPostProcessor.php:68 | `getData() + ['model' => $product]`: every data key kept with its value, `model` added only when missing |
| StocksProcessor.ThresholdFor | src/Model/Resolver/Products/DataPostProcessor/Stocks.php:122-129 | the configured threshold is read exactly when `only_x_left_in_stock` is requested, and is then the configured quantity |
| StocksProcessor.FormatStock | src/Model/Resolver/Products/DataPostProcessor/Stocks.php:144-158 | `stock_status` is `IN_STOCK` exactly when the item's status is in stock and `OUT_OF_STOCK` otherwise; a reported count is the item's quantity |
| StocksProcessor.ThresholdRule | src/Model/Resolver/Products/DataPostProcessor/Stocks.php:150-153 | a configured threshold of 0 never reports a count; any other reports the quantity exactly when it is at most the threshold |
| StocksProcessor.SelectSourceItems | src/Model/Resolver/Products/DataPostProcessor/Stocks.php:131-135 | the source items read are exactly the table's items whose SKU is one of the products' SKUs |
| StocksProcessor.LastSourceItem | src/Model/Resolver/Products/DataPostProcessor/Stocks.php:144-159 | the item that `$formattedStocks[$sku]` ends with is an item of that SKU; none exactly when the SKU has no item |
| StocksProcessor.LastSourceItemSelected | src/Model/Resolver/Products/DataPostProcessor/Stocks.php:131-159 | filtering by the products' SKUs does not change which item of a listed SKU is the last |
| StocksProcessor.LastStocked | src/Model/Resolver/Products/DataPostProcessor/Stocks.php:161-168 | the product whose stock an id ends with is a listed product with that id and formatted stock; none exactly when no such product has stock |
| StocksProcessor.StocksCallback | src/Model/Resolver/Products/DataPostProcessor/Stocks.php:113-116 | no stock field requested, or no source item for the listed SKUs, gives the callback that changes nothing; otherwise a stock-writing callback |
| StocksProcessor.StockOfProduct | src/Model/Resolver/Products/DataPostProcessor/Stocks.php:142-184 | a product has stock fields exactly when a product with its id has a SKU with source items, and the fields come from the last source item of its SKU with the request's threshold |
| StocksProcessor.LastStockedIsLast | src/Model/Resolver/Products/DataPostProcessor/Stocks.php:161-168 | when the last product with an id has stock, its stock is the one kept for the id |
| StocksProcessor.FormatStocks | src/Model/Resolver/Products/DataPostProcessor/Stocks.php:142-159 | the loop keys every SKU with an item and formats it from its last item, a later item overwriting an earlier |
| StocksProcessor.CollectProductStocks | src/Model/Resolver/Products/DataPostProcessor/Stocks.php:161-168 | the loop keys every product id whose SKU has formatted stock, from the last such product |
| StocksProcessor.Process | src/Model/Resolver/Products/DataPostProcessor/Stocks.php:100-185 | `process` returns the stock callback of the request, with both early returns |
| AttributeRules.NonFalsy | src/Model/Resolver/Products/DataPostProcessor/Attributes.php:249-251 | `array_filter` keeps exactly the strings PHP does not read as false (`""` and `"0"`) |
| AttributeRules.KeptAttributes | src/Model/Resolver/Products/DataPostProcessor/Attributes.php:368-403 | an attribute used in product listing is never skipped on a listing; one in the configurable pool never on a product page or in the cart |
| AttributeRules.SkipFlags | src/Model/Resolver/Products/DataPostProcessor/Attributes.php:387-392 | inside the configurable pool only the listing flag and the page decide; outside it the cart flag plays no part |
| AttributeRules.KeptOptions | src/Model/Resolver/Products/DataPostProcessor/Attributes.php:273-287 | an option is kept exactly when its value is one of the entry's values, in option order |
| AttributeRules.OptionRule | src/Model/Resolver/Products/DataPostProcessor/Attributes.php:247-287 | an entry without a value and without a truthy variant value is removed; any other keeps its description and value and gets exactly the options whose value is truthy and is one of its comma-separated values or one of the variant values |
| AttributesProcessor.AttributesBySet | src/Model/Resolver/Products/DataPostProcessor/Attributes.php:443-447 | one entry per attribute set of the listed products and no set twice |
| AttributesProcessor.DataBySet | src/Model/Resolver/Products/DataPostProcessor/Attributes.php:449-472 | only a set with a shown attribute gets an entry |
| AttributesProcessor.Collected | src/Model/Resolver/Products/DataPostProcessor/Attributes.php:467-470 | no attribute code is collected twice |
| AttributesProcessor.DataBySetKeys | src/Model/Resolver/Products/DataPostProcessor/Attributes.php:449-465 | a set describes a code exactly when one of its attributes with that code is not skipped |
| AttributesProcessor.CollectedCodes | src/Model/Resolver/Products/DataPostProcessor/Attributes.php:453-470 | the collected codes are exactly the codes of the attributes that are not skipped |
| AttributesProcessor.FindAttribute | src/Model/Resolver/Products/DataPostProcessor/Attributes.php:183 | `$attributes[$code]` is found exactly for a collected code, and is an attribute with that code |
| AttributesProcessor.GroupIndex | src/Model/Resolver/Products/DataPostProcessor/Attributes.php:187-195 | the group found is the first loaded group of the products' sets whose id is the attribute's group id; none when no group matches |
| AttributesProcessor.BaseInfoHasNoGroup | src/Model/Resolver/Products/DataPostProcessor/Attributes.php:458-465 | before `appendWithGroup` no description has a group |
| AttributesProcessor.DataCodesCollected | src/Model/Resolver/Products/DataPostProcessor/Attributes.php:458-470 | every code described for a set is a collected code, so line 183 always finds its attribute |
| AttributesProcessor.GroupRule | src/Model/Resolver/Products/DataPostProcessor/Attributes.php:169-198 | every described attribute keeps its description and gets the first matching group, or none; no set and no code is added |
| AttributesProcessor.BaseAttributesOf | src/Model/Resolver/Products/DataPostProcessor/Attributes.php:480-495 | every product id gets an attribute map, that of the last product with the id: its set's descriptions, or an empty map when its set shows nothing |
| AttributesProcessor.ProductValues | src/Model/Resolver/Products/DataPostProcessor/Attributes.php:148-158 | every collected code with a non-null value gets the value, creating an entry with only a value where none was; every other field and entry is kept |
| AttributesProcessor.FormattedAttributes | src/Model/Resolver/Products/DataPostProcessor/Attributes.php:218-232 | every collected attribute with options is formatted with its first option dropped, and only collected attributes are |
| AttributesProcessor.OptionStepRule | src/Model/Resolver/Products/DataPostProcessor/Attributes.php:237-288 | one product and one attribute: the entry is removed or given its selected options as the option rule says; other products and codes are untouched |
| AttributesProcessor.ProductsNarrow | src/Model/Resolver/Products/DataPostProcessor/Attributes.php:237-288 | the option step over all products keeps every product id and only removes entries or sets their options |
| AttributesProcessor.OptionsNarrow | src/Model/Resolver/Products/DataPostProcessor/Attributes.php:207-289 | `appendWithOptions` keeps every product id and only removes entries or sets their options; descriptions and values are untouched |
| AttributesProcessor.AttributesCallback | src/Model/Resolver/Products/DataPostProcessor/Attributes.php:428-432 | the callback changes nothing exactly when no attribute field is requested |
| AttributesProcessor.CallbackCoversProducts | src/Model/Resolver/Products/DataPostProcessor/Attributes.php:480-523 | the callback has an attribute map for every listed product id and no other, and every entry it writes has a description or a value |
| AttributesProcessor.CollectSets | src/Model/Resolver/Products/DataPostProcessor/Attributes.php:443-447 | the loop builds the sets of the listed products, each with the attributes of its first product |
| AttributesProcessor.VisitAttribute | src/Model/Resolver/Products/DataPostProcessor/Attributes.php:454-470 | one pass of the inner loop extends the descriptions and the collected attributes by one attribute |
| AttributesProcessor.CollectSetAttributes | src/Model/Resolver/Products/DataPostProcessor/Attributes.php:453-471 | the loop over one set's attributes extends the descriptions and the collected attributes by that set |
| AttributesProcessor.CollectAttributes | src/Model/Resolver/Products/DataPostProcessor/Attributes.php:449-472 | the nested loop builds the descriptions per set and the collected attributes |
| AttributesProcessor.FindGroup | src/Model/Resolver/Products/DataPostProcessor/Attributes.php:187-195 | the group loop with its `break` stops at the first matching group |
| AttributesProcessor.GroupSet | src/Model/Resolver/Products/DataPostProcessor/Attributes.php:182-196 | every description of a set gets its group |
| AttributesProcessor.AppendWithGroup | src/Model/Resolver/Products/DataPostProcessor/Attributes.php:169-198 | `appendWithGroup` gives every description of every set its group |
| AttributesProcessor.BuildProductAttributes | src/Model/Resolver/Products/DataPostProcessor/Attributes.php:480-495 | the loop lists every product id in order and builds each one's base attribute map |
| AttributesProcessor.ValuesOfProduct | src/Model/Resolver/Products/DataPostProcessor/Attributes.php:148-158 | the inner loop writes the product's values into its attribute map |
| AttributesProcessor.AppendWithValue | src/Model/Resolver/Products/DataPostProcessor/Attributes.php:134-160 | `appendWithValue` writes the values of every loaded product, that is every listed id the catalog has |
| AttributesProcessor.FormatAttributes | src/Model/Resolver/Products/DataPostProcessor/Attributes.php:218-232 | the loop builds the formatted attributes |
| AttributesProcessor.ApplyOptionStep | src/Model/Resolver/Products/DataPostProcessor/Attributes.php:238-287 | one pass of the inner loop removes the entry or sets its options |
| AttributesProcessor.AppendWithOptions | src/Model/Resolver/Products/DataPostProcessor/Attributes.php:207-289 | `appendWithOptions` runs the option step for every formatted attribute and every product |
| AttributesProcessor.ComputeProductAttributes | src/Model/Resolver/Products/DataPostProcessor/Attributes.php:434-509 | the steps of `process` after the fields give every product id its attribute map |
| AttributesProcessor.Attributes.constructor | src/Model/Resolver/Products/DataPostProcessor/Attributes.php:73-96 | starts with no configurable attribute ids loaded |
| AttributesProcessor.Attributes.GetConfigurableAttributeIds | src/Model/Resolver/Products/DataPostProcessor/Attributes.php:355-366 | loads the distinct ids of `catalog_product_super_attribute` into the processor, counting one load |
| AttributesProcessor.Attributes.Process | src/Model/Resolver/Products/DataPostProcessor/Attributes.php:409-524 | `process` returns the attribute callback of the request; the ids are loaded at most once per call, and not at all once they are known |
| DataPostProcessor.RunCallbacks | src/Model/Resolver/Products/DataPostProcessor.php:71-73 | the callbacks run on the product's data in configured order |
| DataPostProcessor.BuildProductsData | src/Model/Resolver/Products/DataPostProcessor.php:64-76 | one entry per product id, built from the last product with that id through all callbacks |
| DataPostProcessor.ApplyAllKeeps | src/Model/Resolver/Products/DataPostProcessor.php:71-73 | a key no callback writes keeps its presence and its value |
| DataPostProcessor.StocksAttributesCommute | src/Model/Resolver/Products/DataPostProcessor.php:71-73 | the stock and the attribute callbacks give the same data in either order |
| DataPostProcessor.DataPostProcessor.constructor | src/Model/Resolver/Products/DataPostProcessor.php:30-34 | holds the configured processors in order |
| DataPostProcessor.DataPostProcessor.Callbacks | src/Model/Resolver/Products/DataPostProcessor.php:49-62 | one callback per configured processor |
| DataPostProcessor.DataPostProcessor.ProcessorCallback | src/Model/Resolver/Products/DataPostProcessor.php:56-61 | each processor returns its own callback for the request |
| DataPostProcessor.DataPostProcessor.CollectCallbacks | src/Model/Resolver/Products/DataPostProcessor.php:49-62 | every processor is asked once, in configured order |
| DataPostProcessor.DataPostProcessor.CallbacksPointwise | src/Model/Resolver/Products/DataPostProcessor.php:49-62 | a list holding each processor's callback at its position is the list of callbacks |
| DataPostProcessor.DataPostProcessor.Process | src/Model/Resolver/Products/DataPostProcessor.php:43-77 | `process` returns one entry per product id, built from the last product with the id and run through every callback |
| DataPostProcessor.DataPostProcessor.ProductEntry | src/Model/Resolver/Products/DataPostProcessor.php:64-76 | a product's entry keeps every field no callback writes, holds the product under `model` unless its data has that key, and gains no other field |

## Left out

- The GraphQL framework and the batch-resolver plumbing are not modelled. A resolver's input is the queue of SKUs, or the selection tree with its path. The website's stock id is a parameter.
- SQL, the collections and the repositories become functions over the `Store` value, including the product type lookup behind `getProductTypesBySkus`. Query building, connections and table names are not modelled.
- Exceptions the loaders throw are modelled as `Result` failures.
- `appendWithSwatchOptions` and the swatch helper are not modelled, because swatch data comes from another module. The option step stops where swatches would be attached.
- The price range and image post-processors, and the collection post-processors, are outside this core.
- PHP array key order in the output is not modelled. The model keeps attribute maps and product maps as Dafny maps, and option lists in option order.
- Options are not modelled as keyed by value. A repeated option value would collapse into one key in PHP but stays two entries in the model.
- PHP's normalisation of numeric-string array keys to integers is not modelled. SKUs and attribute codes are strings throughout.
- Callbacks are values that say what they write (`ProductData.Callback`), not closures that take the data by reference.
- `GetStockItem::processQueue` reads the website's stock id and never uses it. The model leaves that read out.
- ReservationsCondition.AreSalableWithReservationsCondition.Execute requires a stock item configuration for every SKU that needs the reservation check. The source calls a method on the `false` it gets back and fails there; the model does not cover that crash. The chain and the stock status resolver pass this requirement on only for the SKUs that reach a reservations condition (`ConditionChain.RequiredConfigured`, `ConditionChain.OptionalConfigured`).
- ConditionChain.AreProductsSalableConditionChain.constructor requires a configuration that passes validation. `ConditionChain.AreProductsSalableConditionChain.Create` models the constructor's error path.
- Floating-point quantities are modelled as `real`, without rounding.
- The product type lookup (`getProductTypesBySkus`) throws for a SKU the catalog does not have, and the reservation condition reads its result without a guard. That failure is not modelled: the model treats a SKU without a product type as not source-managed.
- SKU comparison is modelled as exact string equality. The database matches SKUs by its collation, which is case-insensitive by default, and the PHP code keys its results by the SKU the database returns. Matching that depends on collation, and the re-keying of a result under the database's spelling of a SKU, are not captured.

## Findings

| source | as written | input that shows it | evidently intended | confidence | as-written member | corrected member |
|---|---|---|---|---|---|---|
| src/Model/Inventory/GetProductIdsBySkusCache.php:63-66 | the id from the uncached lookup is cast with `(int)` before it is stored and returned, so null becomes 0 | a SKU the catalog does not have: the cache answers and stores 0 | null for an unknown SKU, as the doc comment at line 40 promises and the uncached lookup answers | not executed | ProductIds.UnknownSkuReadsAsZero | ProductIds.CorrectedProductIdsBySkusCache.Execute |
