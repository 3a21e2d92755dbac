/**
 * Concrete runs of the handler that a caller can prove from its contract
 * alone, with no store call throwing.
 */
module Scenarios {

  import opened Wrappers
  import opened Inventory
  import opened OrderRequest
  import opened Storage
  import opened OrderRoutes

  const NoFaults := Faults(false, {}, false, {}, false)

  /** One class with 3 seats, asked for 2 and then 2 again: the second item fails and 3 seats remain. */
  method SameClassTwice() {
    var db := new Database(map["a" := 3], []);
    var body := OrderBody(Some("Ann"), Some("555"), Some(["a", "a"]), Some([Numeric(2), Numeric(2)]));
    var items := Normalise(body);
    assert items == [LessonPair("a", 2), LessonPair("a", 2)];
    var first := [LessonPair("a", 2)];
    assert items[..0] == [] && items[..1] == first && first[..0] == [];
    assert Fits(map["a" := 3], first);
    assert Debit(map["a" := 3], first) == map["a" := 1];
    var res, k := PlaceOrder(db, body, NoFaults, 0);
    assert k == 1;
    assert res == NotEnoughSpots("a", 2, 1);
    assert db.classes == map["a" := 3];
    assert db.orders == [];
  }

  /** A has 5 seats and B has 4; asking 3 of A and 10 of B fails on B, reports 4, and A is back at 5. */
  method SecondClassShort() {
    var db := new Database(map["A" := 5, "B" := 4], []);
    var body := OrderBody(Some("Ann"), Some("555"), Some(["A", "B"]), Some([Numeric(3), Numeric(10)]));
    var items := Normalise(body);
    assert items == [LessonPair("A", 3), LessonPair("B", 10)];
    var s0 := map["A" := 5, "B" := 4];
    var first := [LessonPair("A", 3)];
    assert items[..0] == [] && items[..1] == first && first[..0] == [];
    assert Fits(s0, first);
    assert Debit(s0, first) == map["A" := 2, "B" := 4];
    var res, k := PlaceOrder(db, body, NoFaults, 0);
    assert k == 1;
    assert res == NotEnoughSpots("B", 10, 4);
    assert db.classes == s0;
    assert db.orders == [];
  }

  /** An order without a phone is refused and the store is untouched. */
  method MissingPhone() {
    var db := new Database(map["a" := 3], []);
    var body := OrderBody(Some("Ann"), Some(""), Some(["a"]), None);
    var res, _ := PlaceOrder(db, body, NoFaults, 0);
    assert res == BadRequest;
    assert db.classes == map["a" := 3] && db.orders == [];
  }

  /** The same order placed twice against a class with seats for exactly one: created once, then refused. */
  method RepeatedOrder() {
    var db := new Database(map["a" := 2], []);
    var body := OrderBody(Some("Ann"), Some("555"), Some(["a"]), Some([Numeric(2)]));
    var items := Normalise(body);
    assert items == [LessonPair("a", 2)] && items[..0] == [];
    assert Debit(map["a" := 2], items[..0]) == map["a" := 2];
    assert Fits(map["a" := 2], items);
    var res1, _ := PlaceOrder(db, body, NoFaults, 1);
    assert res1 == Created(OrderDoc("Ann", "555", ["a"], [2], 1));
    assert db.classes == map["a" := 0];
    var res2, k := PlaceOrder(db, body, NoFaults, 2);
    assert k == 0;
    assert res2 == NotEnoughSpots("a", 2, 0);
    assert db.classes == map["a" := 0] && |db.orders| == 1;
  }
}
