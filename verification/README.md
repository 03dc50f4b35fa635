# BorderBuddies shipment core, modelled in Dafny

BorderBuddies is a small shipping-compliance web app. A shipper fills in a
shipment form (sender, sender and recipient country, item types, declared
value, weight, carrier). The app checks the shipment against a fixed rule
catalog and stores it when it is compliant. A shipment over the 30 kg
single-container limit can instead be split into several containers under one
order id. A tracking page finds the stored records of an order id.

This project models that core in five modules:

- `Catalog` (`catalog.dfy`) holds the rule catalog:
  - the restricted items per recipient country;
  - the forbidden sender-to-recipient routes;
  - the sets of items that may not travel together;
  - the 30 kg and 1 kg weight bounds.

  The check and its lemmas take the catalog as a `RuleCatalog` value. They hold for any catalog, and the worked cases use the app's own.
- `Compliance` (`compliance.dfy`) holds the compliance check:
  - the `Violation` datatype, one constructor per kind of error message;
  - `Evaluate`, which specifies the ordered error list;
  - `CheckCompliance`, an imperative method with the same append-as-you-go loops as the app, proved equal to `Evaluate`;
  - lemmas stating each of the four checks exactly: the iff, the multiplicities, the order, and what each check ignores.
- `Splitter` (`splitter.dfy`) holds the weight splitter loop. It is proved for its length, each weight, the cap, and when the proposed weights add up to the total.
- `Text` (`text.dfy`) holds Python's `str.strip()`, with the whitespace set of `str.isspace()`.
- `Store` (`store.dfy`) holds the in-memory store:
  - a `ShipmentStore` class with the list of records, the tracking index and the split-mode flag;
  - the single and split submission paths;
  - the tracking page's order-id lookup, which is a pure function.

Order and tracking ids, which the app draws at random, are parameters of the
submission methods. Nothing assumes that they are unique, so the tracking
index is modelled with last-write-wins.

The two submission paths store different kinds of value in the tracking
index. The single path stores the status string and the split path stores the
whole record. `TrackingEntry` keeps both cases (`StatusOnly`, `FullRecord`).

## Model

| member | source | states |
|---|---|---|
| `Catalog.RulesConflictsArePairs` | appp.py:91-97 | every conflict set of the catalog names two distinct items |
| `Catalog.RestrictedItems` | appp.py:72-83 | the defining constant: recipient country to the items it restricts, as in the app's table |
| `Catalog.ConflictingDestinations` | appp.py:85-89 | the defining constant: sender country to the recipients it may not ship to |
| `Catalog.ItemConflicts` | appp.py:91-97 | the defining constant: the five item sets that may not travel together, in catalog order |
| `Catalog.MaxWeightKg` | appp.py:99 | the defining constant: the 30 kg single-container limit |
| `Catalog.MinWeightKg` | appp.py:100 | the defining constant: the 1 kg minimum container weight |
| `Compliance.IsMissingField` | appp.py:184 | the defining predicate of the missing-field test: empty sender name, recipient or item list, or a value or weight that is not positive |
| `Compliance.ConflictPart` | appp.py:198-202 | the conflict stage: nothing when at most one distinct item is selected; otherwise at most one violation per catalog set, each a catalog set contained in the item set |
| `Compliance.Evaluate` | appp.py:182-202 | the defining function of the error list (the four checks concatenated in order), with at most one error per item and per conflict set plus two |
| `Compliance.CheckCompliance` | appp.py:182-202 | the error list the appending code builds is exactly `Evaluate`, the four checks concatenated in the fixed order |
| `Compliance.CollectRestricted` | appp.py:192-195 | the restricted-item loop yields one violation per item on the recipient's list, in item-list order |
| `Compliance.CollectConflicts` | appp.py:200-202 | the conflict loop yields one violation per catalog set contained in the selection, in catalog order |
| `Compliance.RestrictedViolations` | appp.py:192-195 | at most one violation per item; each names an item of the list that is restricted, and the recipient country |
| `Compliance.ConflictViolations` | appp.py:200-202 | at most one violation per conflict set; each names a catalog set contained in the selection |
| `Compliance.RestrictedAppend` | appp.py:193-195 | restricted-item violations follow item-list order (concatenation is preserved) |
| `Compliance.ConflictAppend` | appp.py:200-202 | item-conflict violations follow catalog order (concatenation is preserved) |
| `Compliance.RestrictedCount` | appp.py:192-195 | a restricted item is reported once per occurrence in the item list; an item that is not restricted is never reported |
| `Compliance.ConflictCount` | appp.py:200-202 | a conflict set is reported once per catalog entry when it is contained in the selection, never otherwise |
| `Compliance.EvaluateByStage` | appp.py:182-202 | the error list is missing-field, then route, then restricted-item, then conflict violations; each part is exactly its check's result |
| `Compliance.MissingFieldReported` | appp.py:184-185 | the missing-field error appears iff the name, the recipient or the item list is empty or the value or the weight is not positive; it then comes first and appears only once |
| `Compliance.DestinationReported` | appp.py:188-189 | a route error appears iff the sender is a key of the forbidden-route table and the recipient is on its list; it then appears exactly once |
| `Compliance.DestinationIgnoresItems` | appp.py:188-189 | the route errors do not depend on the items |
| `Compliance.RestrictedReported` | appp.py:192-195 | the number of errors for item x equals the occurrences of x in the item list when x is restricted in the recipient country, and is zero otherwise |
| `Compliance.RestrictedNamesRecipient` | appp.py:192-195 | every restricted-item error names the recipient and an item of the request on its restricted list |
| `Compliance.UnknownRecipientRestrictsNothing` | appp.py:192 | a recipient missing from the catalog (the empty default of the lookup) yields no restricted-item error |
| `Compliance.ConflictsReported` | appp.py:198-202 | the number of errors for conflict set c equals its catalog entries when there is more than one distinct item and c is contained in the item set, and is zero otherwise |
| `Compliance.ConflictsIgnoreOrder` | appp.py:198-202 | the conflict errors depend only on the set of items, not on their order or duplicates |
| `Compliance.NoConflictTriggered` | appp.py:200-202 | no conflict set contained in the selection means no conflict error |
| `Compliance.ConflictGuardRedundant` | appp.py:198-199 | when every conflict set has at least two items, as in the catalog, the "more than one distinct item" guard never changes the result |
| `Compliance.ForbiddenRouteOnly` | appp.py:182-202 | India to Canada with books yields exactly the route error |
| `Compliance.BooksToJapanCompliant` | appp.py:182-202 | a complete UK-to-Japan request for books yields no error |
| `Compliance.BatteryAndAlcoholToUsa` | appp.py:182-202 | a battery and alcohol to the USA yield a restricted-item and a conflict error |
| `Splitter.ContainerShare` | appp.py:244 | a container after the first gets at most 30 kg and at most the even share of the weight above 30 kg; below the cap it gets exactly that share |
| `Splitter.ShareTimesCount` | appp.py:239-244 | the shares add the total back exactly when the remainder fits under the cap, and fall short otherwise |
| `Splitter.FortyFiveKgInTwo` | appp.py:239-244 | 45 kg in two containers proposes 30 kg and 15 kg, which add up to 45 kg |
| `Splitter.SplitWeights` | appp.py:239-244 | n weights (one if n is not above 1); the first 30 kg, the rest the capped share, all at most 30 kg; the sum is the total iff total-30 is at most 30(n-1), less otherwise |
| `Splitter.ShareCanFallBelowMinimum` | appp.py:242-244 | the splitter does not keep the 1 kg minimum: 31 kg in three containers proposes 0.5 kg |
| `Text.TrimLeftSpec` | appp.py:286 | leading-whitespace removal keeps the longest suffix that does not start with whitespace |
| `Text.TrimRightSpec` | appp.py:291 | trailing-whitespace removal keeps the longest prefix that does not end with whitespace |
| `Text.Strip` | appp.py:286 | the stripped string neither starts nor ends with whitespace, and is empty iff the input is all whitespace |
| `Text.StripIsSlice` | appp.py:286 | the stripped string is a slice of the input with only whitespace before and after it |
| `Text.StripTrimmed` | appp.py:291 | a string with no whitespace at either end strips to itself |
| `Text.StripIdempotent` | appp.py:286-291 | stripping twice equals stripping once |
| `Store.ContainerRecords` | appp.py:262-275 | one record per container; each has the group's order id, its own tracking id and status Processing |
| `Store.SingleRecord` | appp.py:211-222 | the defining function of a single shipment's record: the form's fields, the given ids and status Processing |
| `Store.ContainerRecord` | appp.py:264-275 | the defining function of container i's record: sender, recipient and service from the form; weight, value and items from container i; status Processing |
| `Store.IndexRecords` | appp.py:261-277 | the defining function of the tracking index after a split: each record entered under its tracking id in turn (its properties are the Index lemmas) |
| `Store.FindByOrderId` | appp.py:289-292 | the lookup returns only stored records whose stripped order id equals the stripped query |
| `Store.FindComplete` | appp.py:289-292 | every stored record whose stripped order id matches is returned |
| `Store.FindAppend` | appp.py:289-292 | the lookup keeps insertion order |
| `Store.FindAll` | appp.py:289-292 | a list of records all carrying the queried id is returned whole |
| `Store.FindGroup` | appp.py:289-292 | after a group under one order id is appended, the lookup returns the earlier matches followed by the group |
| `Store.FindStrippedQuery` | appp.py:286-291 | stripping the query beforehand does not change the lookup |
| `Store.IndexKeys` | appp.py:276-277 | indexing a group adds exactly the group's tracking ids to the keys |
| `Store.IndexUntouched` | appp.py:276-277 | an entry whose tracking id the group does not use is unchanged |
| `Store.IndexFromGroup` | appp.py:276-277 | each of the group's tracking ids maps to a full record of the group carrying that id |
| `Store.IndexLastWins` | appp.py:276-277 | a record that no later record of the group shares a tracking id with is the entry under its id |
| `Store.IndexAppend` | appp.py:277 | indexing one more record is one more map update |
| `Store.ShipmentStore.constructor` | appp.py:114-123 | an empty record list, an empty tracking index and split mode off |
| `Store.ShipmentStore.RequestSplit` | appp.py:230-233 | split mode turns on when the weight is over 30 kg and otherwise keeps its value; the records and the index are unchanged |
| `Store.ShipmentStore.SubmitSingle` | appp.py:181-224 | nothing happens in split mode or over 30 kg; with errors nothing is stored and the errors are returned; otherwise exactly one Processing record with the request's fields is appended (earlier records unchanged), the tracking id maps to the status "Processing", and the lookup of the order id gains that record |
| `Store.ShipmentStore.AddContainer` | appp.py:276-277 | one record appended and indexed under its tracking id, the store invariant kept |
| `Store.ShipmentStore.SubmitSplit` | appp.py:259-280 | outside split mode nothing changes; otherwise the container records are appended after the old ones, the index is the old one updated with every container, the order id's lookup gains all of them in order, and split mode turns off; there is no compliance check |

## Left out

- Streamlit widgets, page navigation, success and error messages, and the Analytics page (shipment table and report downloads) are user interface. The widgets' `min_value`/`max_value` clamping is also left out. This covers the container count (at least 2), the per-container weights (1 to 30 kg) and the container item choices being a subset of the form's items. The store takes the per-container inputs as given.
- The weights the form finally submits are the user-edited values, not the splitter's proposal. The splitter is modelled on its own, and `SubmitSplit` takes the weights as a parameter.
- `st.session_state.selected_countries` and `selected_items` are written after a single submission but never read by the core, so they are left out.
- CSV and PDF report generation is formatting done by external libraries.
- The Gemini chatbot and regulation-update calls are network calls to an external model.
- Order and tracking ids are drawn at random in the app. Here they are parameters, and they are not assumed to be unique.
- Weights and values are exact reals. IEEE floating-point rounding is not modelled, so the splitter's sums are exact here.
- The error messages are not modelled. Each one is the payload of its `Violation` constructor, without the message text. The text for a conflict set joins the set's items in Python's set iteration order, which is not modelled.
- The proposed container weights have no lower bound, as in the splitter code. When the total is under 30 kg the shares are negative. When the remainder is small they fall below the 1 kg minimum. In the app the number inputs then reject or clamp these values. The splitter code itself states no such bound, and the model follows that code.
