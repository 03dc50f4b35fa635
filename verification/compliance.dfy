/** The compliance check run on a single shipment before it is submitted:
    four independent checks, each appending its violations to one list in a
    fixed order. */
module Compliance {
  import opened Catalog

  /** What the shipper entered on the shipment form. */
  datatype ShipmentRequest = ShipmentRequest(
    senderName: string,
    senderCountry: string,
    recipientCountry: string,
    items: seq<string>,
    declaredValue: real,
    weight: real,
    service: string)

  /** One reported reason a shipment may not be submitted. */
  datatype Violation =
    | MissingField
    | ConflictingDestination(sender: string, recipient: string)
    | RestrictedItem(item: string, country: string)
    | ItemConflict(conflict: set<string>)
  {
    /** The check that reports this kind of violation, in evaluation order. */
    function Stage(): nat
    {
      match this
      case MissingField => 0
      case ConflictingDestination(_, _) => 1
      case RestrictedItem(_, _) => 2
      case ItemConflict(_) => 3
    }
  }

  /** The required-field test: an empty sender name, recipient or item list,
      or a declared value or weight that is not positive. */
  predicate IsMissingField(req: ShipmentRequest)
  {
    || req.senderName == []
    || req.recipientCountry == []
    || req.items == []
    || req.declaredValue <= 0.0
    || req.weight <= 0.0
  }

  /** The distinct items of the item list. */
  function ItemSet(items: seq<string>): set<string>
  {
    set x | x in items
  }

  /** One RestrictedItem violation per entry of `items` that is on the
      `restricted` list, in item-list order. */
  function RestrictedViolations(items: seq<string>, restricted: seq<string>, country: string): (r: seq<Violation>)
    ensures |r| <= |items|
    ensures forall v :: v in r ==> v.RestrictedItem? && v.item in items && v.item in restricted && v.country == country
  {
    if items == [] then []
    else
      (if items[0] in restricted then [RestrictedItem(items[0], country)] else [])
      + RestrictedViolations(items[1..], restricted, country)
  }

  /** One ItemConflict violation per conflict set (in catalog order) that is
      contained in the selected item set. */
  function ConflictViolations(conflicts: seq<set<string>>, selected: set<string>): (r: seq<Violation>)
    ensures |r| <= |conflicts|
    ensures forall v :: v in r ==> v.ItemConflict? && v.conflict in conflicts && v.conflict <= selected
  {
    if conflicts == [] then []
    else
      (if conflicts[0] <= selected then [ItemConflict(conflicts[0])] else [])
      + ConflictViolations(conflicts[1..], selected)
  }

  /** The item-conflict check only runs when more than one distinct item is
      selected. */
  function ConflictPart(rules: RuleCatalog, items: seq<string>): (r: seq<Violation>)
    ensures |r| <= |rules.itemConflicts|
    ensures |ItemSet(items)| <= 1 ==> r == []
    ensures forall v :: v in r ==>
              v.ItemConflict? && v.conflict in rules.itemConflicts && v.conflict <= ItemSet(items)
  {
    var selected := ItemSet(items);
    if |selected| > 1 then ConflictViolations(rules.itemConflicts, selected) else []
  }

  /** The full, ordered result of the compliance check: missing fields, then
      the forbidden route, then restricted items, then item conflicts. */
  function Evaluate(rules: RuleCatalog, req: ShipmentRequest): (r: seq<Violation>)
    ensures |r| <= 2 + |req.items| + |rules.itemConflicts|
  {
    (if IsMissingField(req) then [MissingField] else [])
    + (if rules.ForbiddenRoute(req.senderCountry, req.recipientCountry)
       then [ConflictingDestination(req.senderCountry, req.recipientCountry)] else [])
    + RestrictedViolations(req.items, rules.RestrictedIn(req.recipientCountry), req.recipientCountry)
    + ConflictPart(rules, req.items)
  }

  /** The compliance check as the form runs it: an error list built up by
      appending, check after check. */
  method CheckCompliance(rules: RuleCatalog, req: ShipmentRequest) returns (errors: seq<Violation>)
    ensures errors == Evaluate(rules, req)
  {
    errors := [];
    if IsMissingField(req) {
      errors := errors + [MissingField];
    }
    if req.senderCountry in rules.conflictingDestinations
       && req.recipientCountry in rules.conflictingDestinations[req.senderCountry] {
      errors := errors + [ConflictingDestination(req.senderCountry, req.recipientCountry)];
    }
    var restricted := CollectRestricted(req.items, rules.RestrictedIn(req.recipientCountry), req.recipientCountry);
    errors := errors + restricted;
    var selected := ItemSet(req.items);
    if |selected| > 1 {
      var conflicts := CollectConflicts(rules.itemConflicts, selected);
      errors := errors + conflicts;
    }
  }

  /** The restricted-item loop: walks the item list and appends one violation
      per item found on the recipient's restricted list. */
  method CollectRestricted(items: seq<string>, restricted: seq<string>, country: string) returns (found: seq<Violation>)
    ensures found == RestrictedViolations(items, restricted, country)
  {
    found := [];
    for i := 0 to |items|
      invariant found == RestrictedViolations(items[..i], restricted, country)
    {
      var item := items[i];
      RestrictedAppend(items[..i], [item], restricted, country);
      assert items[..i + 1] == items[..i] + [item];
      if item in restricted {
        found := found + [RestrictedItem(item, country)];
      }
    }
    assert items[..|items|] == items;
  }

  /** The item-conflict loop: walks the catalog's conflict sets in order and
      appends one violation per set contained in the selected items. */
  method CollectConflicts(conflicts: seq<set<string>>, selected: set<string>) returns (found: seq<Violation>)
    ensures found == ConflictViolations(conflicts, selected)
  {
    found := [];
    for j := 0 to |conflicts|
      invariant found == ConflictViolations(conflicts[..j], selected)
    {
      var conflict := conflicts[j];
      ConflictAppend(conflicts[..j], [conflict], selected);
      assert conflicts[..j + 1] == conflicts[..j] + [conflict];
      if conflict <= selected {
        found := found + [ItemConflict(conflict)];
      }
    }
    assert conflicts[..|conflicts|] == conflicts;
  }

  // ---------------------------------------------------------------------------
  // Order of the restricted-item and item-conflict violations
  // ---------------------------------------------------------------------------

  /** Restricted-item violations follow the item list: the violations of a
      concatenation are the violations of its parts, in order. */
  lemma {:induction false} RestrictedAppend(a: seq<string>, b: seq<string>, restricted: seq<string>, country: string)
    ensures RestrictedViolations(a + b, restricted, country)
         == RestrictedViolations(a, restricted, country) + RestrictedViolations(b, restricted, country)
  {
    if a != [] {
      assert (a + b)[0] == a[0];
      assert (a + b)[1..] == a[1..] + b;
      RestrictedAppend(a[1..], b, restricted, country);
    } else {
      assert a + b == b;
    }
  }

  /** Item-conflict violations follow the catalog order of the conflict sets. */
  lemma {:induction false} ConflictAppend(a: seq<set<string>>, b: seq<set<string>>, selected: set<string>)
    ensures ConflictViolations(a + b, selected)
         == ConflictViolations(a, selected) + ConflictViolations(b, selected)
  {
    if a != [] {
      assert (a + b)[0] == a[0];
      assert (a + b)[1..] == a[1..] + b;
      ConflictAppend(a[1..], b, selected);
    } else {
      assert a + b == b;
    }
  }

  // ---------------------------------------------------------------------------
  // Multiplicities
  // ---------------------------------------------------------------------------

  /** Exactly one restricted-item violation per occurrence of a restricted item
      in the item list, and none for an item that is not restricted. */
  lemma {:induction false} RestrictedCount(items: seq<string>, restricted: seq<string>, country: string, x: string)
    ensures multiset(RestrictedViolations(items, restricted, country))[RestrictedItem(x, country)]
         == if x in restricted then multiset(items)[x] else 0
  {
    if items != [] {
      RestrictedCount(items[1..], restricted, country, x);
      assert items == [items[0]] + items[1..];
    }
  }

  /** Exactly one item-conflict violation per catalog entry equal to `c` when
      `c` is contained in the selected items, and none otherwise. */
  lemma {:induction false} ConflictCount(conflicts: seq<set<string>>, selected: set<string>, c: set<string>)
    ensures multiset(ConflictViolations(conflicts, selected))[ItemConflict(c)]
         == if c <= selected then multiset(conflicts)[c] else 0
  {
    if conflicts != [] {
      ConflictCount(conflicts[1..], selected, c);
      assert conflicts == [conflicts[0]] + conflicts[1..];
    }
  }

  // ---------------------------------------------------------------------------
  // The error list stage by stage
  // ---------------------------------------------------------------------------

  /** The violations of `vs` reported by check number `k`, in order. */
  function OfStage(vs: seq<Violation>, k: nat): (r: seq<Violation>)
    ensures forall v :: v in r ==> v in vs && v.Stage() == k
  {
    if vs == [] then []
    else (if vs[0].Stage() == k then [vs[0]] else []) + OfStage(vs[1..], k)
  }

  lemma {:induction false} OfStageAppend(a: seq<Violation>, b: seq<Violation>, k: nat)
    ensures OfStage(a + b, k) == OfStage(a, k) + OfStage(b, k)
  {
    if a != [] {
      assert (a + b)[0] == a[0];
      assert (a + b)[1..] == a[1..] + b;
      OfStageAppend(a[1..], b, k);
    } else {
      assert a + b == b;
    }
  }

  /** OfStage keeps every occurrence of a violation of its own stage. */
  lemma {:induction false} OfStageCount(vs: seq<Violation>, v: Violation)
    ensures multiset(OfStage(vs, v.Stage()))[v] == multiset(vs)[v]
  {
    if vs != [] {
      var k := v.Stage();
      var h := if vs[0].Stage() == k then [vs[0]] else [];
      OfStageCount(vs[1..], v);
      assert OfStage(vs, k) == h + OfStage(vs[1..], k);
      assert multiset(h)[v] == multiset([vs[0]])[v];
      assert vs == [vs[0]] + vs[1..];
    }
  }

  /** Every violation of stage `k` is kept by OfStage. */
  lemma {:induction false} OfStageComplete(vs: seq<Violation>, k: nat, v: Violation)
    requires v in vs && v.Stage() == k
    ensures v in OfStage(vs, k)
  {
    if vs[0] != v {
      OfStageComplete(vs[1..], k, v);
    }
  }

  /** A block whose violations all come from check `j` is kept whole by
      OfStage for stage `j` and dropped entirely for any other stage. */
  lemma {:induction false} OfStageBlock(vs: seq<Violation>, j: nat, k: nat)
    requires forall v :: v in vs ==> v.Stage() == j
    ensures OfStage(vs, k) == if j == k then vs else []
  {
    if vs != [] {
      assert vs[0] in vs;
      OfStageBlock(vs[1..], j, k);
    }
  }

  /** Four blocks, each of a single stage and in stage order, are recovered
      from their concatenation by stage. */
  lemma OfStageBlocks(m: seq<Violation>, d: seq<Violation>, r: seq<Violation>, c: seq<Violation>, k: nat)
    requires forall v :: v in m ==> v.Stage() == 0
    requires forall v :: v in d ==> v.Stage() == 1
    requires forall v :: v in r ==> v.Stage() == 2
    requires forall v :: v in c ==> v.Stage() == 3
    requires k <= 3
    ensures OfStage(m + d + r + c, k) == if k == 0 then m else if k == 1 then d else if k == 2 then r else c
  {
    OfStageAppend(m + d + r, c, k);
    OfStageAppend(m + d, r, k);
    OfStageAppend(m, d, k);
    OfStageBlock(m, 0, k);
    OfStageBlock(d, 1, k);
    OfStageBlock(r, 2, k);
    OfStageBlock(c, 3, k);
  }

  /** The error list is the concatenation of the four checks' results in the
      fixed order missing field, forbidden route, restricted items, item
      conflicts; each stage's part is exactly what that check reports. */
  lemma EvaluateByStage(rules: RuleCatalog, req: ShipmentRequest)
    ensures var e := Evaluate(rules, req);
      && e == OfStage(e, 0) + OfStage(e, 1) + OfStage(e, 2) + OfStage(e, 3)
      && OfStage(e, 0) == (if IsMissingField(req) then [MissingField] else [])
      && OfStage(e, 1) == (if rules.ForbiddenRoute(req.senderCountry, req.recipientCountry)
                           then [ConflictingDestination(req.senderCountry, req.recipientCountry)] else [])
      && OfStage(e, 2) == RestrictedViolations(req.items, rules.RestrictedIn(req.recipientCountry), req.recipientCountry)
      && OfStage(e, 3) == ConflictPart(rules, req.items)
  {
    var m := if IsMissingField(req) then [MissingField] else [];
    var d := if rules.ForbiddenRoute(req.senderCountry, req.recipientCountry)
             then [ConflictingDestination(req.senderCountry, req.recipientCountry)] else [];
    var r := RestrictedViolations(req.items, rules.RestrictedIn(req.recipientCountry), req.recipientCountry);
    var c := ConflictPart(rules, req.items);
    assert Evaluate(rules, req) == m + d + r + c;
    OfStageBlocks(m, d, r, c, 0);
    OfStageBlocks(m, d, r, c, 1);
    OfStageBlocks(m, d, r, c, 2);
    OfStageBlocks(m, d, r, c, 3);
  }

  // ---------------------------------------------------------------------------
  // The four checks, one by one
  // ---------------------------------------------------------------------------

  /** A missing-field violation is reported iff a required field is missing,
      at most once, and then first. */
  lemma MissingFieldReported(rules: RuleCatalog, req: ShipmentRequest)
    ensures MissingField in Evaluate(rules, req) <==> IsMissingField(req)
    ensures IsMissingField(req) ==> Evaluate(rules, req)[0] == MissingField
    ensures forall i :: 0 < i < |Evaluate(rules, req)| ==> Evaluate(rules, req)[i] != MissingField
  {
    var m := if IsMissingField(req) then [MissingField] else [];
    var rest := (if rules.ForbiddenRoute(req.senderCountry, req.recipientCountry)
                 then [ConflictingDestination(req.senderCountry, req.recipientCountry)] else [])
      + RestrictedViolations(req.items, rules.RestrictedIn(req.recipientCountry), req.recipientCountry)
      + ConflictPart(rules, req.items);
    assert MissingField !in rest;
    var e := Evaluate(rules, req);
    assert e == m + rest;
    forall i | 0 < i < |e| ensures e[i] != MissingField {
      if i >= |m| {
        assert e[i] == rest[i - |m|];
      }
    }
  }

  /** The forbidden-route violation is reported iff the catalog forbids the
      sender->recipient route, and then exactly once. */
  lemma DestinationReported(rules: RuleCatalog, req: ShipmentRequest)
    ensures (exists v :: v in Evaluate(rules, req) && v.ConflictingDestination?)
        <==> rules.ForbiddenRoute(req.senderCountry, req.recipientCountry)
    ensures |OfStage(Evaluate(rules, req), 1)| == if rules.ForbiddenRoute(req.senderCountry, req.recipientCountry) then 1 else 0
  {
    EvaluateByStage(rules, req);
    var e := Evaluate(rules, req);
    if rules.ForbiddenRoute(req.senderCountry, req.recipientCountry) {
      assert ConflictingDestination(req.senderCountry, req.recipientCountry) in OfStage(e, 1);
    }
    forall v | v in e && v.ConflictingDestination?
      ensures rules.ForbiddenRoute(req.senderCountry, req.recipientCountry)
    {
      OfStageComplete(e, 1, v);
    }
  }

  /** The forbidden-route part of the result does not depend on the items. */
  lemma DestinationIgnoresItems(rules: RuleCatalog, req: ShipmentRequest, items: seq<string>)
    ensures OfStage(Evaluate(rules, req), 1) == OfStage(Evaluate(rules, req.(items := items)), 1)
  {
    EvaluateByStage(rules, req);
    EvaluateByStage(rules, req.(items := items));
  }

  /** Restricted-item violations: one per occurrence of an item on the
      recipient's restricted list, always naming the recipient. */
  lemma RestrictedReported(rules: RuleCatalog, req: ShipmentRequest, x: string)
    ensures multiset(Evaluate(rules, req))[RestrictedItem(x, req.recipientCountry)]
         == if x in rules.RestrictedIn(req.recipientCountry) then multiset(req.items)[x] else 0
  {
    EvaluateByStage(rules, req);
    OfStageCount(Evaluate(rules, req), RestrictedItem(x, req.recipientCountry));
    RestrictedCount(req.items, rules.RestrictedIn(req.recipientCountry), req.recipientCountry, x);
  }

  /** Every restricted-item violation names the recipient and an item of the
      request that is on the recipient's restricted list. */
  lemma RestrictedNamesRecipient(rules: RuleCatalog, req: ShipmentRequest)
    ensures forall v :: v in Evaluate(rules, req) && v.RestrictedItem? ==>
              v.country == req.recipientCountry && v.item in req.items && v.item in rules.RestrictedIn(req.recipientCountry)
  {
    EvaluateByStage(rules, req);
    var e := Evaluate(rules, req);
    forall v | v in e && v.RestrictedItem?
      ensures v.country == req.recipientCountry && v.item in req.items && v.item in rules.RestrictedIn(req.recipientCountry)
    {
      OfStageComplete(e, 2, v);
    }
  }

  /** A recipient the catalog does not list has no restricted items. */
  lemma UnknownRecipientRestrictsNothing(rules: RuleCatalog, req: ShipmentRequest)
    requires req.recipientCountry !in rules.restrictedItems
    ensures forall v :: v in Evaluate(rules, req) ==> !v.RestrictedItem?
  {
    EvaluateByStage(rules, req);
    var e := Evaluate(rules, req);
    forall v | v in e ensures !v.RestrictedItem? {
      if v.RestrictedItem? {
        OfStageComplete(e, 2, v);
      }
    }
  }

  /** Item-conflict violations: one per catalog conflict set contained in the
      distinct items, and only when more than one distinct item is selected. */
  lemma ConflictsReported(rules: RuleCatalog, req: ShipmentRequest, c: set<string>)
    ensures multiset(Evaluate(rules, req))[ItemConflict(c)]
         == if |ItemSet(req.items)| > 1 && c <= ItemSet(req.items) then multiset(rules.itemConflicts)[c] else 0
  {
    EvaluateByStage(rules, req);
    OfStageCount(Evaluate(rules, req), ItemConflict(c));
    if |ItemSet(req.items)| > 1 {
      ConflictCount(rules.itemConflicts, ItemSet(req.items), c);
    }
  }

  /** Item order and duplicates do not matter to the item-conflict check. */
  lemma ConflictsIgnoreOrder(rules: RuleCatalog, req: ShipmentRequest, items: seq<string>)
    requires ItemSet(items) == ItemSet(req.items)
    ensures OfStage(Evaluate(rules, req), 3) == OfStage(Evaluate(rules, req.(items := items)), 3)
  {
    EvaluateByStage(rules, req);
    EvaluateByStage(rules, req.(items := items));
  }

  lemma SubsetCard(a: set<string>, b: set<string>)
    requires a <= b
    ensures |a| <= |b|
  {
    assert b == a + (b - a);
  }

  /** No conflict set contained in the selection means no violation. */
  lemma {:induction false} NoConflictTriggered(conflicts: seq<set<string>>, selected: set<string>)
    requires forall c :: c in conflicts ==> !(c <= selected)
    ensures ConflictViolations(conflicts, selected) == []
  {
    if conflicts != [] {
      NoConflictTriggered(conflicts[1..], selected);
    }
  }

  /** When every conflict set names at least two items, as in the catalog,
      the "more than one distinct item" guard never changes the outcome. */
  lemma ConflictGuardRedundant(rules: RuleCatalog, items: seq<string>)
    requires rules.ConflictsArePairs()
    ensures ConflictPart(rules, items) == ConflictViolations(rules.itemConflicts, ItemSet(items))
  {
    var selected := ItemSet(items);
    if |selected| <= 1 {
      forall c | c in rules.itemConflicts ensures !(c <= selected) {
        if c <= selected {
          SubsetCard(c, selected);
        }
      }
      NoConflictTriggered(rules.itemConflicts, selected);
    }
  }

  // ---------------------------------------------------------------------------
  // Worked cases, on the catalog
  // ---------------------------------------------------------------------------

  /** India -> Canada with only books: exactly the forbidden-route violation. */
  lemma ForbiddenRouteOnly()
    ensures Evaluate(Rules, ShipmentRequest("Asha", "India", "Canada", ["Books"], 10.0, 5.0, "DHL"))
         == [ConflictingDestination("India", "Canada")]
  {
    var req := ShipmentRequest("Asha", "India", "Canada", ["Books"], 10.0, 5.0, "DHL");
    assert ItemSet(req.items) == {"Books"};
    assert Rules.RestrictedIn("Canada") == ["Knives", "Electronics"];
  }

  /** Books from the UK to Japan with every field filled in: no violation. */
  lemma BooksToJapanCompliant()
    ensures Evaluate(Rules, ShipmentRequest("Asha", "UK", "Japan", ["Books"], 10.0, 5.0, "DHL")) == []
  {
    var req := ShipmentRequest("Asha", "UK", "Japan", ["Books"], 10.0, 5.0, "DHL");
    assert ItemSet(req.items) == {"Books"};
    assert Rules.RestrictedIn("Japan") == ["Medicine"];
    assert "UK" !in Rules.conflictingDestinations;
  }

  /** A battery and alcohol to the USA: the battery is restricted there and
      the pair conflicts. */
  lemma BatteryAndAlcoholToUsa()
    ensures var e := Evaluate(Rules, ShipmentRequest("Asha", "UK", "USA", ["Lithium Battery", "Alcohol"], 10.0, 5.0, "DHL"));
      && RestrictedItem("Lithium Battery", "USA") in e
      && ItemConflict({"Lithium Battery", "Alcohol"}) in e
  {
    var req := ShipmentRequest("Asha", "UK", "USA", ["Lithium Battery", "Alcohol"], 10.0, 5.0, "DHL");
    assert "Lithium Battery" in req.items;
    assert Rules.RestrictedIn("USA") == ["Lithium Battery", "Perishable"];
    assert ItemSet(req.items) == {"Lithium Battery", "Alcohol"};
    assert Rules.itemConflicts[0] == {"Lithium Battery", "Alcohol"};
  }
}
