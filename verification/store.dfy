/** The in-memory shipment store: the list of submitted shipment records, the
    tracking-id index, the single and split submission paths that fill them,
    and the order-id lookup of the tracking page. Order and tracking ids are
    supplied by the caller. */
module Store {
  import opened Catalog
  import opened Compliance
  import opened Text

  /** The only status a shipment record is ever given. */
  const ProcessingStatus: string := "Processing"

  /** One stored shipment record (one per physical container). */
  datatype Shipment = Shipment(
    orderId: string,
    trackingId: string,
    senderName: string,
    senderCountry: string,
    recipientCountry: string,
    items: seq<string>,
    declaredValue: real,
    weight: real,
    service: string,
    status: string)

  /** What the tracking index holds for a tracking id: the single-shipment
      path stores only the status string, the split path the whole record. */
  datatype TrackingEntry = StatusOnly(status: string) | FullRecord(record: Shipment)

  /** The result of pressing the single-shipment submit button. */
  datatype SubmitOutcome =
    | NotSubmitted                        // split mode is on or the weight is over the limit
    | Rejected(errors: seq<Violation>)    // the compliance check reported violations
    | Submitted(orderId: string)

  /** A fresh record, always created with status Processing. */
  function NewRecord(orderId: string, trackingId: string, senderName: string, senderCountry: string,
                     recipientCountry: string, items: seq<string>, declaredValue: real, weight: real,
                     service: string): Shipment
  {
    Shipment(orderId, trackingId, senderName, senderCountry, recipientCountry, items,
             declaredValue, weight, service, ProcessingStatus)
  }

  /** The record a compliant single shipment is stored as. */
  function SingleRecord(req: ShipmentRequest, orderId: string, trackingId: string): Shipment
  {
    NewRecord(orderId, trackingId, req.senderName, req.senderCountry, req.recipientCountry,
              req.items, req.declaredValue, req.weight, req.service)
  }

  /** The record of container `i` of a split shipment: sender, recipient and
      service from the form, weight, value and items from the container's own
      inputs. */
  function ContainerRecord(req: ShipmentRequest, orderId: string, trackingIds: seq<string>, weights: seq<real>,
                           values: seq<real>, containerItems: seq<seq<string>>, i: nat): Shipment
    requires i < |trackingIds| && i < |weights| && i < |values| && i < |containerItems|
  {
    NewRecord(orderId, trackingIds[i], req.senderName, req.senderCountry, req.recipientCountry,
              containerItems[i], values[i], weights[i], req.service)
  }

  /** The records of all containers of a split shipment, in container order. */
  function ContainerRecords(req: ShipmentRequest, orderId: string, trackingIds: seq<string>, weights: seq<real>,
                            values: seq<real>, containerItems: seq<seq<string>>): (records: seq<Shipment>)
    requires |weights| == |trackingIds| && |values| == |trackingIds| && |containerItems| == |trackingIds|
    ensures |records| == |trackingIds|
    ensures forall k :: 0 <= k < |records| ==>
              records[k].orderId == orderId && records[k].trackingId == trackingIds[k] && records[k].status == ProcessingStatus
  {
    seq(|trackingIds|, k requires 0 <= k < |trackingIds| =>
      ContainerRecord(req, orderId, trackingIds, weights, values, containerItems, k))
  }

  // ---------------------------------------------------------------------------
  // Order-id lookup
  // ---------------------------------------------------------------------------

  /** The tracking page's filter: the stored records whose stripped order id
      equals the stripped query, in insertion order. Empty means not found. */
  function FindByOrderId(shipments: seq<Shipment>, query: string): (found: seq<Shipment>)
    ensures |found| <= |shipments|
    ensures forall s :: s in found ==> s in shipments && Strip(s.orderId) == Strip(query)
  {
    if shipments == [] then []
    else
      (if Strip(shipments[0].orderId) == Strip(query) then [shipments[0]] else [])
      + FindByOrderId(shipments[1..], query)
  }

  /** The lookup keeps insertion order: the matches of a concatenation are the
      matches of its parts, in order. */
  lemma {:induction false} FindAppend(a: seq<Shipment>, b: seq<Shipment>, query: string)
    ensures FindByOrderId(a + b, query) == FindByOrderId(a, query) + FindByOrderId(b, query)
  {
    if a == [] {
      assert a + b == b;
    } else {
      assert (a + b)[0] == a[0];
      assert (a + b)[1..] == a[1..] + b;
      FindAppend(a[1..], b, query);
    }
  }

  /** Every stored record whose stripped order id matches is found. */
  lemma {:induction false} FindComplete(shipments: seq<Shipment>, query: string, s: Shipment)
    requires s in shipments && Strip(s.orderId) == Strip(query)
    ensures s in FindByOrderId(shipments, query)
  {
    if shipments[0] != s {
      FindComplete(shipments[1..], query, s);
    }
  }

  /** Records that all carry the queried order id are all found, in order. */
  lemma {:induction false} FindAll(records: seq<Shipment>, query: string)
    requires forall r :: r in records ==> Strip(r.orderId) == Strip(query)
    ensures FindByOrderId(records, query) == records
  {
    if records != [] {
      FindAll(records[1..], query);
    }
  }

  /** Looking up the order id of a group of records appended together finds
      the earlier matches followed by the whole group. */
  lemma FindGroup(before: seq<Shipment>, group: seq<Shipment>, orderId: string)
    requires forall k :: 0 <= k < |group| ==> group[k].orderId == orderId
    ensures FindByOrderId(before + group, orderId) == FindByOrderId(before, orderId) + group
  {
    FindAppend(before, group, orderId);
    FindAll(group, orderId);
  }

  /** Stripping the query first does not change the result. */
  lemma {:induction false} FindStrippedQuery(shipments: seq<Shipment>, query: string)
    ensures FindByOrderId(shipments, Strip(query)) == FindByOrderId(shipments, query)
  {
    StripIdempotent(query);
    if shipments != [] {
      FindStrippedQuery(shipments[1..], query);
    }
  }

  // ---------------------------------------------------------------------------
  // The tracking index of the split path
  // ---------------------------------------------------------------------------

  /** The tracking ids of a list of records. */
  function TrackingIds(records: seq<Shipment>): set<string>
  {
    set r | r in records :: r.trackingId
  }

  /** The tracking index after the split path has entered `records` one
      after the other, each under its own tracking id. */
  function IndexRecords(tracking: map<string, TrackingEntry>, records: seq<Shipment>): map<string, TrackingEntry>
    decreases records
  {
    if records == [] then tracking
    else IndexRecords(tracking[records[0].trackingId := FullRecord(records[0])], records[1..])
  }

  lemma TrackingIdsCons(records: seq<Shipment>)
    requires records != []
    ensures TrackingIds(records) == {records[0].trackingId} + TrackingIds(records[1..])
  {
    assert records == [records[0]] + records[1..];
  }

  /** After a group of records is entered the index holds the old keys plus
      the group's tracking ids. */
  lemma {:induction false} IndexKeys(tracking: map<string, TrackingEntry>, records: seq<Shipment>)
    decreases records
    ensures IndexRecords(tracking, records).Keys == tracking.Keys + TrackingIds(records)
  {
    if records != [] {
      IndexKeys(tracking[records[0].trackingId := FullRecord(records[0])], records[1..]);
      TrackingIdsCons(records);
    }
  }

  /** An entry whose tracking id the group does not mention is untouched. */
  lemma {:induction false} IndexUntouched(tracking: map<string, TrackingEntry>, records: seq<Shipment>, t: string)
    decreases records
    requires t in tracking && t !in TrackingIds(records)
    ensures t in IndexRecords(tracking, records) && IndexRecords(tracking, records)[t] == tracking[t]
  {
    if records != [] {
      TrackingIdsCons(records);
      IndexUntouched(tracking[records[0].trackingId := FullRecord(records[0])], records[1..], t);
    }
  }

  /** Each of the group's tracking ids maps to a full record of the group
      that carries that tracking id. */
  lemma {:induction false} IndexFromGroup(tracking: map<string, TrackingEntry>, records: seq<Shipment>, t: string)
    decreases records
    requires t in TrackingIds(records)
    ensures var m := IndexRecords(tracking, records);
      t in m && m[t].FullRecord? && m[t].record in records && m[t].record.trackingId == t
  {
    var first := records[0];
    var next := tracking[first.trackingId := FullRecord(first)];
    TrackingIdsCons(records);
    if t in TrackingIds(records[1..]) {
      IndexFromGroup(next, records[1..], t);
    } else {
      IndexUntouched(next, records[1..], t);
    }
  }

  /** A later record with the same tracking id replaces an earlier one: a
      record that no later record of the group shares a tracking id with is
      the entry under its tracking id. */
  lemma {:induction false} IndexLastWins(tracking: map<string, TrackingEntry>, records: seq<Shipment>, i: nat)
    decreases records
    requires i < |records| && records[i].trackingId !in TrackingIds(records[i + 1..])
    ensures var m := IndexRecords(tracking, records);
      records[i].trackingId in m && m[records[i].trackingId] == FullRecord(records[i])
  {
    var first := records[0];
    var next := tracking[first.trackingId := FullRecord(first)];
    if i == 0 {
      IndexUntouched(next, records[1..], first.trackingId);
    } else {
      assert records[1..][i - 1] == records[i];
      assert records[1..][i - 1 + 1..] == records[i + 1..];
      IndexLastWins(next, records[1..], i - 1);
    }
  }

  /** Entering one more record is one more index update. */
  lemma {:induction false} IndexAppend(tracking: map<string, TrackingEntry>, records: seq<Shipment>, r: Shipment)
    ensures IndexRecords(tracking, records + [r]) == IndexRecords(tracking, records)[r.trackingId := FullRecord(r)]
    decreases records
  {
    if records == [] {
      assert records + [r] == [r];
    } else {
      assert (records + [r])[0] == records[0];
      assert (records + [r])[1..] == records[1..] + [r];
      IndexAppend(tracking[records[0].trackingId := FullRecord(records[0])], records[1..], r);
    }
  }

  // ---------------------------------------------------------------------------
  // The store
  // ---------------------------------------------------------------------------

  class ShipmentStore {
    /** Every submitted record, in submission order. */
    var shipments: seq<Shipment>
    /** Tracking id -> what the submission path recorded for it. */
    var tracking: map<string, TrackingEntry>
    /** Whether the form is in split mode (the "Split Shipment" button was
        pressed and no split has been submitted since). */
    var splitPending: bool

    /** Every stored record is Processing and indexed by its tracking id;
        every full record in the index is a stored record under its own
        tracking id. */
    ghost predicate Valid()
      reads this
    {
      && (forall s :: s in shipments ==> s.status == ProcessingStatus && s.trackingId in tracking)
      && (forall t :: t in tracking && tracking[t].FullRecord? ==>
            tracking[t].record in shipments && tracking[t].record.trackingId == t)
    }

    constructor ()
      ensures Valid()
      ensures shipments == [] && tracking == map[] && !splitPending
    {
      shipments := [];
      tracking := map[];
      splitPending := false;
    }

    /** The "Split Shipment" button, offered only when the weight is over the
        single-container limit. */
    method RequestSplit(weight: real)
      requires Valid()
      modifies this
      ensures Valid()
      ensures splitPending == (old(splitPending) || weight > MaxWeightKg)
      ensures shipments == old(shipments) && tracking == old(tracking)
    {
      if weight > MaxWeightKg {
        splitPending := true;
      }
    }

    /** The single-shipment submit button. It acts only outside split mode
        and within the weight limit; it then runs the compliance check and
        stores the shipment exactly when no violation is reported. */
    method SubmitSingle(req: ShipmentRequest, orderId: string, trackingId: string) returns (outcome: SubmitOutcome)
      requires Valid()
      modifies this
      ensures Valid()
      ensures splitPending == old(splitPending)
      ensures old(splitPending) || req.weight > MaxWeightKg ==>
                outcome == NotSubmitted && shipments == old(shipments) && tracking == old(tracking)
      ensures !old(splitPending) && req.weight <= MaxWeightKg && Evaluate(Rules, req) != [] ==>
                outcome == Rejected(Evaluate(Rules, req)) && shipments == old(shipments) && tracking == old(tracking)
      ensures !old(splitPending) && req.weight <= MaxWeightKg && Evaluate(Rules, req) == [] ==>
                && outcome == Submitted(orderId)
                && shipments == old(shipments) + [SingleRecord(req, orderId, trackingId)]
                && tracking == old(tracking)[trackingId := StatusOnly(ProcessingStatus)]
                && FindByOrderId(shipments, orderId) == FindByOrderId(old(shipments), orderId) + [SingleRecord(req, orderId, trackingId)]
    {
      if splitPending || req.weight > MaxWeightKg {
        return NotSubmitted;
      }
      var errors := CheckCompliance(Rules, req);
      if errors != [] {
        return Rejected(errors);
      }
      FindGroup(shipments, [SingleRecord(req, orderId, trackingId)], orderId);
      shipments := shipments + [SingleRecord(req, orderId, trackingId)];
      tracking := tracking[trackingId := StatusOnly(ProcessingStatus)];
      outcome := Submitted(orderId);
    }

    /** Stores one container record and indexes it under its tracking id. */
    method AddContainer(record: Shipment)
      requires Valid()
      requires record.status == ProcessingStatus
      modifies this
      ensures Valid()
      ensures shipments == old(shipments) + [record]
      ensures tracking == old(tracking)[record.trackingId := FullRecord(record)]
      ensures splitPending == old(splitPending)
    {
      shipments := shipments + [record];
      tracking := tracking[record.trackingId := FullRecord(record)];
    }

    /** The split-shipment submit button, shown only in split mode. It stores
        one record per container, all under the one order id, indexes each
        under its tracking id, and leaves split mode. No compliance check is
        run on this path. */
    method SubmitSplit(req: ShipmentRequest, orderId: string, trackingIds: seq<string>, weights: seq<real>,
                       values: seq<real>, containerItems: seq<seq<string>>)
      requires Valid()
      requires |weights| == |trackingIds| && |values| == |trackingIds| && |containerItems| == |trackingIds|
      modifies this
      ensures Valid()
      ensures !old(splitPending) ==>
                shipments == old(shipments) && tracking == old(tracking) && !splitPending
      ensures old(splitPending) ==>
                var added := ContainerRecords(req, orderId, trackingIds, weights, values, containerItems);
                && !splitPending
                && shipments == old(shipments) + added
                && tracking == IndexRecords(old(tracking), added)
                && FindByOrderId(shipments, orderId) == FindByOrderId(old(shipments), orderId) + added
    {
      if !splitPending {
        return;
      }
      var added := ContainerRecords(req, orderId, trackingIds, weights, values, containerItems);
      for i := 0 to |trackingIds|
        invariant Valid()
        invariant shipments == old(shipments) + added[..i]
        invariant tracking == IndexRecords(old(tracking), added[..i])
      {
        IndexAppend(old(tracking), added[..i], added[i]);
        assert added[..i + 1] == added[..i] + [added[i]];
        AddContainer(added[i]);
      }
      splitPending := false;
      assert added[..|trackingIds|] == added;
      FindGroup(old(shipments), added, orderId);
    }
  }
}
