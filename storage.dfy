/**
 * The two MongoDB collections the handler touches, with one method per
 * driver call it makes. Each call is one atomic step; `outage` says whether
 * the call throws instead (connection lost, server error), in which case it
 * has no effect.
 */
module Storage {

  import opened Wrappers
  import opened Inventory

  /** A document of the `orders` collection. */
  datatype OrderDoc = OrderDoc(
    name: string,
    phone: string,
    lessonIDs: seq<ClassId>,
    spaces: seq<int>,
    createdAt: int)

  /** What `findOneAndUpdate` gives back: the updated document's count, no match, or a throw. */
  datatype UpdateResult = Updated(after: int) | NoMatch | Threw

  class Database {
    /** availableInventory of each document of `classes`. */
    var classes: Counts
    /** The documents of `orders`, in insertion order. */
    var orders: seq<OrderDoc>

    constructor (classes: Counts, orders: seq<OrderDoc>)
      ensures this.classes == classes && this.orders == orders
    {
      this.classes := classes;
      this.orders := orders;
    }

    /**
     * `findOneAndUpdate({ _id: id, availableInventory: { $gte: amount } },
     * { $inc: { availableInventory: -amount } }, { returnDocument: "after" })`.
     */
    method DecrementIfAvailable(id: ClassId, amount: int, outage: bool) returns (r: UpdateResult)
      modifies this`classes
      ensures outage ==> r == Threw && classes == old(classes)
      ensures !outage && Guard(old(classes), id, amount) ==>
                r == Updated(old(classes)[id] - amount) && classes == Withdraw(old(classes), LessonPair(id, amount))
      ensures !outage && !Guard(old(classes), id, amount) ==> r == NoMatch && classes == old(classes)
      ensures r.Updated? ==> r.after >= 0
    {
      if outage {
        r := Threw;
      } else if id in classes && classes[id] >= amount {
        classes := classes[id := classes[id] - amount];
        r := Updated(classes[id]);
      } else {
        r := NoMatch;
      }
    }

    /** `findOne({ _id: id })`, reduced to the document's availableInventory. */
    method FindAvailable(id: ClassId, outage: bool) returns (r: Option<int>)
      ensures r.Some? <==> !outage && id in classes
      ensures r.Some? ==> r.value == classes[id]
    {
      if outage || id !in classes {
        r := None;
      } else {
        r := Some(classes[id]);
      }
    }

    /** `updateOne({ _id: id }, { $inc: { availableInventory: amount } })`; no document matched is not an error. */
    method Increment(id: ClassId, amount: int, outage: bool) returns (ok: bool)
      modifies this`classes
      ensures ok == !outage
      ensures classes == if ok then Restore(old(classes), LessonPair(id, amount)) else old(classes)
    {
      ok := !outage;
      if ok && id in classes {
        classes := classes[id := classes[id] + amount];
      }
    }

    /** `insertOne(doc)` on `orders`. */
    method InsertOrder(doc: OrderDoc, outage: bool) returns (ok: bool)
      modifies this`orders
      ensures ok == !outage
      ensures orders == if ok then old(orders) + [doc] else old(orders)
    {
      ok := !outage;
      if ok {
        orders := orders + [doc];
      }
    }
  }
}
