/** The rule catalog: the constant compliance tables and weight bounds.
    Countries and item types are the plain tag strings the shipper selects. */
module Catalog {

  /** Recipient country -> items that may not be shipped into it. */
  const RestrictedItems: map<string, seq<string>> := map[
    "USA" := ["Lithium Battery", "Perishable"],
    "Canada" := ["Knives", "Electronics"],
    "UK" := ["Medicine"],
    "Australia" := ["Perishable"],
    "India" := ["Perishable"],
    "Saudi Arabia" := ["Alcohol"],
    "UAE" := ["Alcohol"],
    "Singapore" := ["Medicine"],
    "Japan" := ["Medicine"],
    "Germany" := ["Chemicals"]
  ]

  /** Sender country -> recipient countries it may not ship to. */
  const ConflictingDestinations: map<string, seq<string>> := map[
    "India" := ["Canada"],
    "USA" := ["Cuba", "North Korea", "Iran", "Syria"],
    "EU" := ["Russia"]
  ]

  /** Sets of items that may not travel in the same shipment, in catalog order. */
  const ItemConflicts: seq<set<string>> := [
    {"Lithium Battery", "Alcohol"},
    {"Medicine", "Perishable"},
    {"Knives", "Electronics"},
    {"Chemicals", "Food Items"},
    {"Electronics", "Flammable"}
  ]

  const MaxWeightKg: real := 30.0
  const MinWeightKg: real := 1.0

  /** The three rule tables, bundled so that the compliance check can be
      stated for any catalog and instantiated with the one above. */
  datatype RuleCatalog = RuleCatalog(
    restrictedItems: map<string, seq<string>>,
    conflictingDestinations: map<string, seq<string>>,
    itemConflicts: seq<set<string>>)
  {
    /** The restricted list of a recipient country; a country the catalog
        does not know has none (a dictionary lookup with an empty default). */
    function RestrictedIn(country: string): seq<string>
    {
      if country in restrictedItems then restrictedItems[country] else []
    }

    /** Whether the catalog forbids shipping from `sender` to `recipient`. */
    predicate ForbiddenRoute(sender: string, recipient: string)
    {
      sender in conflictingDestinations && recipient in conflictingDestinations[sender]
    }

    /** Every conflict set names at least two different items. */
    predicate ConflictsArePairs()
    {
      forall c :: c in itemConflicts ==> |c| >= 2
    }
  }

  const Rules: RuleCatalog := RuleCatalog(RestrictedItems, ConflictingDestinations, ItemConflicts)

  /** Every conflict set of the catalog names two different items. */
  lemma RulesConflictsArePairs()
    ensures Rules.ConflictsArePairs()
  {
    forall c | c in ItemConflicts ensures |c| >= 2 {
    }
  }
}
