/** The store behind the gateway check: `commitGatewayCheck` of the in-memory store, whose
    consumption index is what makes a greenlight usable once. */
module GatewayStore {
  import opened JsText

  datatype Consumption = Consumption(
    greenlightId: JsString, gateAttemptId: JsString, actionContractId: JsString, idempotencyKey: JsString)

  datatype StreamEvent = StreamEvent(
    streamEventId: JsString, streamId: JsString, partitionKey: JsString, offset: nat, eventDigest: JsString)

  /** A keyed entry of one of the indexes, or a record under its type and id. */
  datatype Entry = Entry(key: JsString, value: JsString)

  datatype Commit = Commit(
    consumption: Option<Consumption>, claims: seq<Entry>, ledger: seq<Entry>, receipts: seq<Entry>,
    records: seq<Entry>, events: seq<StreamEvent>)

  datatype StoreState = StoreState(
    records: map<JsString, JsString>, events: seq<StreamEvent>, consumptions: map<JsString, Consumption>,
    ledger: map<JsString, JsString>, claims: map<JsString, JsString>, receipts: map<JsString, JsString>)

  datatype CommitResult = Committed | AlreadyConsumed | OperationClaimConflict | ReceiptIndexConflict | StreamConflict

  predicate SameOffset(e: StreamEvent, f: StreamEvent) {
    e.streamId == f.streamId && e.partitionKey == f.partitionKey && e.offset == f.offset
  }

  predicate Claimed(m: map<JsString, JsString>, entries: seq<Entry>) {
    exists i :: 0 <= i < |entries| && entries[i].key in m
  }

  predicate OffsetTaken(events: seq<StreamEvent>, e: StreamEvent) {
    exists j :: 0 <= j < |events| && SameOffset(events[j], e)
  }

  predicate StreamTaken(events: seq<StreamEvent>, added: seq<StreamEvent>) {
    exists i :: 0 <= i < |added| && OffsetTaken(events, added[i])
  }

  /** Setting every entry in order. */
  function PutAll(m: map<JsString, JsString>, entries: seq<Entry>): map<JsString, JsString> {
    if entries == [] then m
    else
      var last := entries[|entries| - 1];
      PutAll(m, entries[..|entries| - 1])[last.key := last.value]
  }

  function EventKey(e: StreamEvent): JsString {
    Js("contract_stream_event:") + e.streamEventId
  }

  function EventRecords(events: seq<StreamEvent>): seq<Entry> {
    seq(|events|, i requires 0 <= i < |events| => Entry(EventKey(events[i]), events[i].eventDigest))
  }

  /** Why a commit would be refused, in the order of the checks. */
  function Conflict(s: StoreState, c: Commit): Option<CommitResult> {
    if c.consumption.Some? && c.consumption.value.greenlightId in s.consumptions then Some(AlreadyConsumed)
    else if Claimed(s.claims, c.claims) then Some(OperationClaimConflict)
    else if Claimed(s.receipts, c.receipts) then Some(ReceiptIndexConflict)
    else if StreamTaken(s.events, c.events) then Some(StreamConflict)
    else None
  }

  /** The state after a commit without conflict. */
  function Applied(s: StoreState, c: Commit): StoreState {
    StoreState(
      PutAll(PutAll(s.records, c.records), EventRecords(c.events)),
      s.events + c.events,
      if c.consumption.Some? then s.consumptions[c.consumption.value.greenlightId := c.consumption.value]
      else s.consumptions,
      PutAll(s.ledger, c.ledger),
      PutAll(s.claims, c.claims),
      PutAll(s.receipts, c.receipts))
  }

  function AfterCommit(s: StoreState, c: Commit): StoreState {
    if Conflict(s, c).Some? then s else Applied(s, c)
  }

  function ResultOf(s: StoreState, c: Commit): CommitResult {
    GetOr(Conflict(s, c), Committed)
  }

  function GetOr<T>(o: Option<T>, default: T): T {
    if o.Some? then o.value else default
  }

  class InMemoryProtocolStore {
    var records: map<JsString, JsString>
    var events: seq<StreamEvent>
    var consumptions: map<JsString, Consumption>
    var ledger: map<JsString, JsString>
    var claims: map<JsString, JsString>
    var receipts: map<JsString, JsString>

    function State(): StoreState
      reads this
    {
      StoreState(records, events, consumptions, ledger, claims, receipts)
    }

    constructor ()
      ensures State() == StoreState(map[], [], map[], map[], map[], map[])
    {
      records, events, consumptions := map[], [], map[];
      ledger, claims, receipts := map[], map[], map[];
    }

    /** `entries.some((entry) => index.has(entry.key))`. */
    static method AnyClaimed(m: map<JsString, JsString>, entries: seq<Entry>) returns (claimed: bool)
      ensures claimed <==> Claimed(m, entries)
    {
      for i := 0 to |entries|
        invariant forall j :: 0 <= j < i ==> entries[j].key !in m
      {
        if entries[i].key in m {
          return true;
        }
      }
      return false;
    }

    /** `hasStreamOffset`. */
    method HasStreamOffset(e: StreamEvent) returns (taken: bool)
      ensures taken <==> OffsetTaken(events, e)
    {
      for j := 0 to |events|
        invariant forall k :: 0 <= k < j ==> !SameOffset(events[k], e)
      {
        if SameOffset(events[j], e) {
          return true;
        }
      }
      return false;
    }

    method AnyOffsetTaken(added: seq<StreamEvent>) returns (taken: bool)
      ensures taken <==> StreamTaken(events, added)
    {
      for i := 0 to |added|
        invariant forall k :: 0 <= k < i ==> !OffsetTaken(events, added[k])
      {
        var t := HasStreamOffset(added[i]);
        if t {
          return true;
        }
      }
      return false;
    }

    static method SetAll(m: map<JsString, JsString>, entries: seq<Entry>) returns (next: map<JsString, JsString>)
      ensures next == PutAll(m, entries)
    {
      next := m;
      for i := 0 to |entries|
        invariant next == PutAll(m, entries[..i])
      {
        assert entries[..i + 1][..i] == entries[..i];
        next := next[entries[i].key := entries[i].value];
      }
      assert entries[..|entries|] == entries;
    }

    /** `commitGatewayCheck`: every check first, then every index from staged copies. */
    method CommitGatewayCheck(c: Commit) returns (result: CommitResult)
      modifies this
      ensures State() == AfterCommit(old(State()), c)
      ensures result == ResultOf(old(State()), c)
    {
      if c.consumption.Some? && c.consumption.value.greenlightId in consumptions {
        return AlreadyConsumed;
      }
      var claimConflict := AnyClaimed(claims, c.claims);
      if claimConflict {
        return OperationClaimConflict;
      }
      var receiptConflict := AnyClaimed(receipts, c.receipts);
      if receiptConflict {
        return ReceiptIndexConflict;
      }
      var streamConflict := AnyOffsetTaken(c.events);
      if streamConflict {
        return StreamConflict;
      }
      var nextConsumptions := consumptions;
      if c.consumption.Some? {
        nextConsumptions := nextConsumptions[c.consumption.value.greenlightId := c.consumption.value];
      }
      var nextClaims := SetAll(claims, c.claims);
      var nextLedger := SetAll(ledger, c.ledger);
      var nextReceipts := SetAll(receipts, c.receipts);
      var nextRecords := SetAll(records, c.records);
      nextRecords := SetAll(nextRecords, EventRecords(c.events));
      records, events, consumptions := nextRecords, events + c.events, nextConsumptions;
      ledger, claims, receipts := nextLedger, nextClaims, nextReceipts;
      return Committed;
    }
  }

  // ------------------------------------------------------- runs of commits

  function AfterAll(s: StoreState, cs: seq<Commit>): StoreState {
    if cs == [] then s else AfterCommit(AfterAll(s, cs[..|cs| - 1]), cs[|cs| - 1])
  }

  /** The result of the i-th of a run of commits. */
  function ResultAt(s: StoreState, cs: seq<Commit>, i: nat): CommitResult
    requires i < |cs|
  {
    ResultOf(AfterAll(s, cs[..i]), cs[i])
  }

  predicate Consumes(s: StoreState, cs: seq<Commit>, i: nat, greenlightId: JsString)
    requires i < |cs|
  {
    ResultAt(s, cs, i).Committed? && cs[i].consumption.Some? && cs[i].consumption.value.greenlightId == greenlightId
  }

  lemma {:induction false} ConsumptionIsPermanent(s: StoreState, cs: seq<Commit>, i: nat, greenlightId: JsString)
    requires i < |cs| && Consumes(s, cs, i, greenlightId)
    ensures greenlightId in AfterAll(s, cs).consumptions
    ensures AfterAll(s, cs).consumptions[greenlightId] == cs[i].consumption.value
  {
    var init := cs[..|cs| - 1];
    if i < |init| {
      assert cs[..i] == init[..i];
      ConsumptionIsPermanent(s, init, i, greenlightId);
    } else {
      assert cs[..i] == init;
    }
  }

  /** Over any run of commits from any state, one greenlight is consumed at most once. */
  lemma GreenlightConsumedOnce(s: StoreState, cs: seq<Commit>, i: nat, j: nat, greenlightId: JsString)
    requires i < j < |cs|
    requires Consumes(s, cs, i, greenlightId)
    ensures !Consumes(s, cs, j, greenlightId)
  {
    var before := cs[..j];
    assert before[..i] == cs[..i];
    ConsumptionIsPermanent(s, before, i, greenlightId);
  }

  predicate OffsetsUnique(events: seq<StreamEvent>) {
    forall i, j :: 0 <= i < j < |events| ==> !SameOffset(events[i], events[j])
  }

  /** No two events of a stream ever share an offset, if no commit brings two that do. */
  lemma {:induction false} OffsetsStayUnique(s: StoreState, cs: seq<Commit>)
    requires OffsetsUnique(s.events)
    requires forall i :: 0 <= i < |cs| ==> OffsetsUnique(cs[i].events)
    ensures OffsetsUnique(AfterAll(s, cs).events)
  {
    if cs != [] {
      var init, c := cs[..|cs| - 1], cs[|cs| - 1];
      OffsetsStayUnique(s, init);
      var t := AfterAll(s, init);
      if Conflict(t, c).None? {
        forall i, j | 0 <= i < j < |t.events + c.events|
          ensures !SameOffset((t.events + c.events)[i], (t.events + c.events)[j])
        {
          if i < |t.events| <= j {
            assert !OffsetTaken(t.events, c.events[j - |t.events|]);
          }
        }
      }
    }
  }

  // ------------------------------------------------ what a commit leaves behind

  predicate HasKey(entries: seq<Entry>, key: JsString) {
    exists i :: 0 <= i < |entries| && entries[i].key == key
  }

  /** The value last given for a key. */
  predicate LastGiven(entries: seq<Entry>, key: JsString, value: JsString) {
    exists i :: 0 <= i < |entries| && entries[i] == Entry(key, value)
      && forall j :: i < j < |entries| ==> entries[j].key != key
  }

  lemma LastGivenAppend(init: seq<Entry>, last: Entry, key: JsString, value: JsString)
    ensures LastGiven(init + [last], key, value) <==>
      if last.key == key then last.value == value else LastGiven(init, key, value)
    ensures HasKey(init + [last], key) <==> HasKey(init, key) || last.key == key
  {
    var all := init + [last];
    assert all[|init|] == last;
    if last.key != key && LastGiven(init, key, value) {
      var i :| 0 <= i < |init| && init[i] == Entry(key, value) && forall j :: i < j < |init| ==> init[j].key != key;
      assert all[i] == init[i];
    }
    if last.key != key && LastGiven(all, key, value) {
      var i :| 0 <= i < |all| && all[i] == Entry(key, value) && forall j :: i < j < |all| ==> all[j].key != key;
      assert init[i] == all[i];
      assert forall j :: i < j < |init| ==> init[j] == all[j];
    }
    if HasKey(init, key) {
      var i :| 0 <= i < |init| && init[i].key == key;
      assert all[i] == init[i];
    }
  }

  /** An index after entries were set: the value last given, or else the one from before. */
  lemma {:induction false} PutAllExactly(m: map<JsString, JsString>, entries: seq<Entry>, key: JsString, value: JsString)
    ensures key in PutAll(m, entries) <==> key in m || HasKey(entries, key)
    ensures key in PutAll(m, entries) && PutAll(m, entries)[key] == value <==>
      LastGiven(entries, key, value) || (!HasKey(entries, key) && key in m && m[key] == value)
  {
    if entries != [] {
      var init, last := entries[..|entries| - 1], entries[|entries| - 1];
      assert entries == init + [last];
      PutAllExactly(m, init, key, value);
      LastGivenAppend(init, last, key, value);
    }
  }

  /** The result of a commit, from what is already in the store. */
  lemma ResultExactly(s: StoreState, c: Commit)
    ensures ResultOf(s, c) == AlreadyConsumed
       <==> c.consumption.Some? && c.consumption.value.greenlightId in s.consumptions
    ensures ResultOf(s, c) == OperationClaimConflict <==>
      && !(c.consumption.Some? && c.consumption.value.greenlightId in s.consumptions)
      && (exists i :: 0 <= i < |c.claims| && c.claims[i].key in s.claims)
    ensures ResultOf(s, c) == Committed <==>
      && !(c.consumption.Some? && c.consumption.value.greenlightId in s.consumptions)
      && (forall i :: 0 <= i < |c.claims| ==> c.claims[i].key !in s.claims)
      && (forall i :: 0 <= i < |c.receipts| ==> c.receipts[i].key !in s.receipts)
      && (forall i, j :: 0 <= i < |c.events| && 0 <= j < |s.events| ==>
            !(s.events[j].streamId == c.events[i].streamId && s.events[j].partitionKey == c.events[i].partitionKey
              && s.events[j].offset == c.events[i].offset))
  {
    if StreamTaken(s.events, c.events) {
      var i :| 0 <= i < |c.events| && OffsetTaken(s.events, c.events[i]);
      var j :| 0 <= j < |s.events| && SameOffset(s.events[j], c.events[i]);
    }
    forall i, j | 0 <= i < |c.events| && 0 <= j < |s.events| && !StreamTaken(s.events, c.events)
      ensures !(s.events[j].streamId == c.events[i].streamId && s.events[j].partitionKey == c.events[i].partitionKey
                && s.events[j].offset == c.events[i].offset)
    {
      assert !OffsetTaken(s.events, c.events[i]);
      assert !SameOffset(s.events[j], c.events[i]);
    }
  }

  /** A stream conflict is reported only when nothing else is in the way. */
  lemma StreamConflictIsLast(s: StoreState, c: Commit)
    ensures ResultOf(s, c) == StreamConflict ==>
      && !(c.consumption.Some? && c.consumption.value.greenlightId in s.consumptions)
      && (forall i :: 0 <= i < |c.claims| ==> c.claims[i].key !in s.claims)
      && (forall i :: 0 <= i < |c.receipts| ==> c.receipts[i].key !in s.receipts)
    ensures ResultOf(s, c) == ReceiptIndexConflict ==>
      && !(c.consumption.Some? && c.consumption.value.greenlightId in s.consumptions)
      && (forall i :: 0 <= i < |c.claims| ==> c.claims[i].key !in s.claims)
      && (exists i :: 0 <= i < |c.receipts| && c.receipts[i].key in s.receipts)
  {
  }

  /** A commit that does not go through changes nothing; one that does is found in every index
      with the value last given, and leaves everything else as it was. */
  lemma CommittedIsFound(s: StoreState, c: Commit, key: JsString, value: JsString)
    ensures ResultOf(s, c) != Committed ==> AfterCommit(s, c) == s
    ensures ResultOf(s, c) == Committed ==>
      var t := AfterCommit(s, c);
      && t.events == s.events + c.events
      && (key in t.claims && t.claims[key] == value <==>
            LastGiven(c.claims, key, value) || (!HasKey(c.claims, key) && key in s.claims && s.claims[key] == value))
      && (key in t.receipts && t.receipts[key] == value <==>
            LastGiven(c.receipts, key, value)
            || (!HasKey(c.receipts, key) && key in s.receipts && s.receipts[key] == value))
      && (key in t.ledger && t.ledger[key] == value <==>
            LastGiven(c.ledger, key, value) || (!HasKey(c.ledger, key) && key in s.ledger && s.ledger[key] == value))
  {
    PutAllExactly(s.claims, c.claims, key, value);
    PutAllExactly(s.receipts, c.receipts, key, value);
    PutAllExactly(s.ledger, c.ledger, key, value);
  }

  /** The same for the records, which the stream events join under their own type. */
  lemma CommittedRecordsAreFound(s: StoreState, c: Commit, key: JsString, value: JsString)
    requires ResultOf(s, c) == Committed
    ensures var t := AfterCommit(s, c);
      var events := EventRecords(c.events);
      key in t.records && t.records[key] == value <==>
        || LastGiven(events, key, value)
        || (!HasKey(events, key) && LastGiven(c.records, key, value))
        || (!HasKey(events, key) && !HasKey(c.records, key) && key in s.records && s.records[key] == value)
    ensures |EventRecords(c.events)| == |c.events|
    ensures forall i :: 0 <= i < |c.events| ==>
      EventRecords(c.events)[i]
      == Entry(Js("contract_stream_event:") + c.events[i].streamEventId, c.events[i].eventDigest)
  {
    PutAllExactly(s.records, c.records, key, value);
    PutAllExactly(PutAll(s.records, c.records), EventRecords(c.events), key, value);
  }

  /** Exactly the commit's own greenlight is newly consumed, by the commit's own consumption. */
  lemma CommittedConsumption(s: StoreState, c: Commit, greenlightId: JsString)
    requires ResultOf(s, c) == Committed
    ensures var t := AfterCommit(s, c);
      && (greenlightId in t.consumptions <==>
            greenlightId in s.consumptions
            || (c.consumption.Some? && c.consumption.value.greenlightId == greenlightId))
      && (greenlightId in s.consumptions ==> t.consumptions[greenlightId] == s.consumptions[greenlightId])
      && (c.consumption.Some? && c.consumption.value.greenlightId == greenlightId ==>
            t.consumptions[greenlightId] == c.consumption.value)
  {
  }

  // -------------------------------------------------- claims and receipts, once

  predicate ClaimsAt(s: StoreState, cs: seq<Commit>, i: nat, key: JsString)
    requires i < |cs|
  {
    ResultAt(s, cs, i).Committed? && HasKey(cs[i].claims, key)
  }

  predicate ReceivesAt(s: StoreState, cs: seq<Commit>, i: nat, key: JsString)
    requires i < |cs|
  {
    ResultAt(s, cs, i).Committed? && HasKey(cs[i].receipts, key)
  }

  lemma KeysStay(s: StoreState, c: Commit, key: JsString)
    ensures key in s.claims ==> key in AfterCommit(s, c).claims
    ensures key in s.receipts ==> key in AfterCommit(s, c).receipts
    ensures ResultOf(s, c).Committed? && HasKey(c.claims, key) ==> key in AfterCommit(s, c).claims
    ensures ResultOf(s, c).Committed? && HasKey(c.receipts, key) ==> key in AfterCommit(s, c).receipts
  {
    PutAllExactly(s.claims, c.claims, key, []);
    PutAllExactly(s.receipts, c.receipts, key, []);
  }

  lemma {:induction false} ClaimIsPermanent(s: StoreState, cs: seq<Commit>, i: nat, key: JsString)
    requires i < |cs| && ClaimsAt(s, cs, i, key)
    ensures key in AfterAll(s, cs).claims
  {
    var init := cs[..|cs| - 1];
    KeysStay(AfterAll(s, init), cs[|cs| - 1], key);
    if i < |init| {
      assert cs[..i] == init[..i];
      ClaimIsPermanent(s, init, i, key);
    } else {
      assert cs[..i] == init;
    }
  }

  /** Over any run of commits from any state, an operation claim is taken at most once. */
  lemma ClaimTakenOnce(s: StoreState, cs: seq<Commit>, i: nat, j: nat, key: JsString)
    requires i < j < |cs| && ClaimsAt(s, cs, i, key)
    ensures !ClaimsAt(s, cs, j, key)
  {
    var before := cs[..j];
    assert before[..i] == cs[..i];
    ClaimIsPermanent(s, before, i, key);
    if HasKey(cs[j].claims, key) {
      assert Claimed(AfterAll(s, before).claims, cs[j].claims);
    }
  }

  lemma {:induction false} ReceiptIsPermanent(s: StoreState, cs: seq<Commit>, i: nat, key: JsString)
    requires i < |cs| && ReceivesAt(s, cs, i, key)
    ensures key in AfterAll(s, cs).receipts
  {
    var init := cs[..|cs| - 1];
    KeysStay(AfterAll(s, init), cs[|cs| - 1], key);
    if i < |init| {
      assert cs[..i] == init[..i];
      ReceiptIsPermanent(s, init, i, key);
    } else {
      assert cs[..i] == init;
    }
  }

  /** And a receipt is indexed at most once. */
  lemma ReceiptIndexedOnce(s: StoreState, cs: seq<Commit>, i: nat, j: nat, key: JsString)
    requires i < j < |cs| && ReceivesAt(s, cs, i, key)
    ensures !ReceivesAt(s, cs, j, key)
  {
    var before := cs[..j];
    assert before[..i] == cs[..i];
    ReceiptIsPermanent(s, before, i, key);
    if HasKey(cs[j].receipts, key) {
      assert Claimed(AfterAll(s, before).receipts, cs[j].receipts);
    }
  }
}
