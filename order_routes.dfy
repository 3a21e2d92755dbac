/**
 * `POST /api/orders`: validate the body, reserve the seats of every line
 * item with one guarded decrement each, and either insert the order or
 * give back every seat already taken and report the first class that
 * could not be reserved.
 */
module OrderRoutes {

  import opened Wrappers
  import opened Inventory
  import opened OrderRequest
  import opened Storage

  /**
   * Which store calls of one request throw. Positions in `decrementFails`
   * are line items; positions in `restoreFails` are ledger entries.
   */
  datatype Faults = Faults(
    connectFails: bool,
    decrementFails: set<nat>,
    rereadFails: bool,
    restoreFails: set<nat>,
    insertFails: bool)

  /** The HTTP outcome: 400 invalid data, 400 not enough spots, 201 created, 500. */
  datatype Response =
    | BadRequest
    | NotEnoughSpots(classId: ClassId, requested: int, available: int)
    | Created(order: OrderDoc)
    | ServerError

  /** The `available` reported for a failed item: the re-read count, or 0 if the class is missing or the re-read threw. */
  function ReportedAvailable(s: Counts, id: ClassId, rereadFails: bool): (r: int)
    ensures r == 0 || (id in s && r == s[id])
    ensures !rereadFails && id in s ==> r == s[id]
    ensures rereadFails || id !in s ==> r == 0
  {
    if !rereadFails && id in s then s[id] else 0
  }

  /**
   * Replays the ledger in order with one unconditional increment per entry;
   * an increment that throws (its position is in `restoreFails`) is skipped
   * and the rest still run.
   */
  method RollBack(db: Database, decremented: seq<LessonPair>, restoreFails: set<nat>)
    modifies db`classes
    ensures db.classes == Credit(old(db.classes), Restored(decremented, restoreFails))
  {
    ghost var debited := db.classes;
    for j := 0 to |decremented|
      invariant db.classes == Credit(debited, Restored(decremented[..j], restoreFails))
    {
      var prev := decremented[j];
      RollbackStep(debited, decremented, restoreFails, j);
      var _ := db.Increment(prev.id, prev.requested, j in restoreFails);
    }
    assert decremented[..|decremented|] == decremented;
  }

  /**
   * The failure block of the loop: re-read the failing class for the report
   * (a throwing re-read only loses the detail, never the outcome), then roll
   * the ledger back.
   */
  method ReportShortage(db: Database, id: ClassId, decremented: seq<LessonPair>, faults: Faults)
    returns (available: int)
    modifies db`classes
    ensures available == ReportedAvailable(old(db.classes), id, faults.rereadFails)
    ensures db.classes == Credit(old(db.classes), Restored(decremented, faults.restoreFails))
  {
    var classDoc := db.FindAvailable(id, faults.rereadFails);
    available := if classDoc.Some? then classDoc.value else 0;
    RollBack(db, decremented, faults.restoreFails);
  }

  /** No line item before position `k` had a throwing decrement. */
  predicate NoThrowBefore(faults: Faults, k: nat) {
    forall i | 0 <= i < k :: i !in faults.decrementFails
  }

  /** How the reservation loop ends. */
  datatype Reservation =
    | Reserved
    | Insufficient(pair: LessonPair, available: int)
    | Aborted

  /**
   * The loop over `lessonPairs`: one guarded decrement per item, in order,
   * each success pushed onto the `decremented` ledger. On the first item
   * whose guard fails, re-reads that class for the report, rolls the ledger
   * back and stops. A throwing decrement ends the loop with no rollback.
   */
  method Reserve(db: Database, lessonPairs: seq<LessonPair>, faults: Faults)
    returns (outcome: Reservation, ghost k: nat)
    requires AllPositive(lessonPairs)
    modifies db`classes
    ensures outcome.Reserved? ==>
              Fits(old(db.classes), lessonPairs) && db.classes == Debit(old(db.classes), lessonPairs)
    ensures outcome.Insufficient? ==>
              && FailsAt(old(db.classes), lessonPairs, k)
              && outcome.pair == lessonPairs[k]
              && outcome.available
                 == ReportedAvailable(Debit(old(db.classes), lessonPairs[..k]), outcome.pair.id, faults.rereadFails)
              && db.classes == Debit(old(db.classes), Lost(lessonPairs[..k], faults.restoreFails))
    ensures outcome.Insufficient? ==> !Fits(old(db.classes), lessonPairs)
    ensures outcome.Aborted? ==>
              && k < |lessonPairs| && k in faults.decrementFails
              && Fits(old(db.classes), lessonPairs[..k])
              && db.classes == Debit(old(db.classes), lessonPairs[..k])
    // No item before `k` had a throwing decrement; the loop only stops early at a throw or a shortage.
    ensures k <= |lessonPairs| && NoThrowBefore(faults, k)
    ensures outcome.Reserved? ==> k == |lessonPairs|
    ensures outcome.Insufficient? ==> k !in faults.decrementFails
    ensures NonNegative(old(db.classes)) ==> NonNegative(db.classes)
  {
    ghost var s0 := db.classes;
    var decremented: seq<LessonPair> := [];
    for i := 0 to |lessonPairs|
      invariant decremented == lessonPairs[..i]
      invariant Fits(s0, lessonPairs[..i])
      invariant db.classes == Debit(s0, lessonPairs[..i])
      invariant NoThrowBefore(faults, i)
    {
      var pair := lessonPairs[i];
      DebitStep(s0, lessonPairs, i);
      var result := db.DecrementIfAvailable(pair.id, pair.requested, i in faults.decrementFails);

      if result.Threw? {
        if NonNegative(s0) {
          FitsKeepsNonNegative(s0, decremented);
        }
        return Aborted, i;
      }

      if result.NoMatch? {
        var available := ReportShortage(db, pair.id, decremented, faults);
        ShortageOutcome(s0, lessonPairs, i, faults.restoreFails);
        return Insufficient(pair, available), i;
      }

      PrefixStep(lessonPairs, i);
      decremented := decremented + [pair];
    }
    assert lessonPairs[..|lessonPairs|] == lessonPairs;
    if NonNegative(s0) {
      FitsKeepsNonNegative(s0, lessonPairs);
    }
    return Reserved, |lessonPairs|;
  }

  /** The handler, with the store, the faults of this run and the clock reading `now` as parameters. */
  method PlaceOrder(db: Database, body: OrderBody, faults: Faults, now: int)
    returns (res: Response, ghost stoppedAt: nat)
    modifies db
    // No connection: nothing else happens, not even validation.
    ensures faults.connectFails ==> res == ServerError
    // Invalid body: rejected before any store access.
    ensures !faults.connectFails ==> (res == BadRequest <==> !IsValid(body))
    ensures faults.connectFails || !IsValid(body) ==>
              db.classes == old(db.classes) && db.orders == old(db.orders)
    // Insufficient seats: item `stoppedAt` is the first whose guard fails;
    // every earlier reservation is given back except those whose increment threw.
    ensures res.NotEnoughSpots? ==>
              && IsValid(body)
              && var items := Normalise(body);
              && FailsAt(old(db.classes), items, stoppedAt)
              && res.classId == items[stoppedAt].id
              && res.requested == items[stoppedAt].requested
              && res.available
                 == ReportedAvailable(Debit(old(db.classes), items[..stoppedAt]), res.classId, faults.rereadFails)
              && db.classes == Debit(old(db.classes), Lost(items[..stoppedAt], faults.restoreFails))
              && db.orders == old(db.orders)
    ensures res.NotEnoughSpots? && faults.restoreFails == {} ==> db.classes == old(db.classes)
    // Success: every guard held, each class is down by the seats asked of it,
    // and exactly one order holding the normalised items is inserted.
    ensures res.Created? ==>
              && IsValid(body)
              && var items := Normalise(body);
              && Fits(old(db.classes), items)
              && db.classes == Debit(old(db.classes), items)
              && res.order == OrderDoc(body.name.value, body.phone.value, Ids(items), Spaces(items), now)
              && db.orders == old(db.orders) + [res.order]
    ensures res.Created? ==>
              && (forall id | id in old(db.classes) ::
                    db.classes[id] == old(db.classes)[id] - Demand(Normalise(body), id))
              && Total(old(db.classes)) - Total(db.classes) == Sum(res.order.spaces)
    // Which outcome: decided by the store alone when no decrement throws.
    ensures !faults.connectFails && IsValid(body) && faults.decrementFails == {} ==>
              && (res.NotEnoughSpots? <==> !Fits(old(db.classes), Normalise(body)))
              && (res.Created? <==> Fits(old(db.classes), Normalise(body)) && !faults.insertFails)
    // A throw after validation: the reservations made so far stay made.
    ensures res.ServerError? && !faults.connectFails ==>
              && IsValid(body)
              && stoppedAt <= |Normalise(body)|
              && Fits(old(db.classes), Normalise(body)[..stoppedAt])
              && db.classes == Debit(old(db.classes), Normalise(body)[..stoppedAt])
              && db.orders == old(db.orders)
    // A throwing decrement or insert ends the order with a 500: no item before
    // `stoppedAt` threw, and the run stops at the first throw.
    ensures !faults.connectFails && IsValid(body) ==>
              NoThrowBefore(faults, stoppedAt)
    ensures res.NotEnoughSpots? ==> stoppedAt !in faults.decrementFails
    ensures res.Created? ==> !faults.insertFails && stoppedAt == |Normalise(body)|
    ensures res.ServerError? && !faults.connectFails ==>
              || (stoppedAt < |Normalise(body)| && stoppedAt in faults.decrementFails)
              || (stoppedAt == |Normalise(body)| && faults.insertFails)
    // No counter is ever driven below zero.
    ensures NonNegative(old(db.classes)) ==> NonNegative(db.classes)
  {
    if faults.connectFails {
      return ServerError, 0;
    }
    if !IsValid(body) {
      return BadRequest, 0;
    }

    var lessonIDs := body.lessonIDs.value;
    var spacesArr := SpacesArr(body.spaces, |lessonIDs|);
    var lessonPairs := LessonPairs(lessonIDs, spacesArr);
    ghost var s0 := db.classes;

    var outcome;
    outcome, stoppedAt := Reserve(db, lessonPairs, faults);
    match outcome
    case Aborted =>
      return ServerError, stoppedAt;
    case Insufficient(pair, available) =>
      return NotEnoughSpots(pair.id, pair.requested, available), stoppedAt;
    case Reserved =>
      var orderDoc := OrderDoc(body.name.value, body.phone.value, Ids(lessonPairs), Spaces(lessonPairs), now);
      var inserted := db.InsertOrder(orderDoc, faults.insertFails);
      if !inserted {
        assert lessonPairs[..|lessonPairs|] == lessonPairs;
        return ServerError, |lessonPairs|;
      }
      FitsIffCovers(s0, lessonPairs);
      forall id | id in s0
        ensures db.classes[id] == s0[id] - Demand(lessonPairs, id)
      {
        DebitAt(s0, lessonPairs, id);
      }
      TotalDebit(s0, lessonPairs);
      return Created(orderDoc), |lessonPairs|;
  }
}
