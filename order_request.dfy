/**
 * The body of `POST /api/orders` and the two pure steps the handler applies
 * to it before touching the store: validation and the normalisation of
 * `spaces` into one positive seat count per lesson (`lessonPairs`).
 */
module OrderRequest {

  import opened Wrappers
  import opened Inventory

  /** An entry of `spaces` as `Number(...)` reads it: an integer, or NaN. */
  datatype Count = Numeric(n: int) | NotANumber

  /**
   * The request body. A field that is absent, `null` or not of the expected
   * shape is `None`; `lessonIDs` and `spaces` are `Some` only when they are arrays.
   */
  datatype OrderBody = OrderBody(
    name: Option<string>,
    phone: Option<string>,
    lessonIDs: Option<seq<ClassId>>,
    spaces: Option<seq<Count>>)

  /** JavaScript truthiness of a string field: present and not empty. */
  predicate Truthy(field: Option<string>) {
    field.Some? && field.value != ""
  }

  /** The guard of the basic validation: name, phone and a non-empty lessonIDs array. */
  predicate IsValid(body: OrderBody) {
    Truthy(body.name) && Truthy(body.phone) && body.lessonIDs.Some? && |body.lessonIDs.value| != 0
  }

  /**
   * An order is refused exactly when the name or the phone is missing or
   * empty, or `lessonIDs` is not an array or is empty.
   */
  lemma ValidationRejects(body: OrderBody)
    ensures body.name.None? || body.name == Some("") ==> !IsValid(body)
    ensures body.phone.None? || body.phone == Some("") ==> !IsValid(body)
    ensures body.lessonIDs.None? || body.lessonIDs == Some([]) ==> !IsValid(body)
    ensures !IsValid(body) ==>
              || body.name.None? || body.name == Some("")
              || body.phone.None? || body.phone == Some("")
              || body.lessonIDs.None? || body.lessonIDs == Some([])
  {
  }

  /** `v || 1` on a number: zero (and NaN) is falsy. */
  function OrOne(v: int): int {
    if v != 0 then v else 1
  }

  /** `Number(s) || 1` on one entry of `spaces`. */
  function NumberOrOne(c: Count): int {
    match c
    case Numeric(n) => OrOne(n)
    case NotANumber => 1
  }

  /** `Math.max(1, v)`. */
  function AtLeastOne(v: int): int {
    if v >= 1 then v else 1
  }

  /**
   * `spacesArr`: the coerced `spaces` array, replaced by all ones when it is
   * missing or its length differs from the number of lessons.
   */
  function SpacesArr(spaces: Option<seq<Count>>, n: nat): (r: seq<int>)
    ensures |r| == n
    ensures forall i | 0 <= i < n :: r[i] != 0
    ensures spaces.None? || |spaces.value| != n ==> forall i | 0 <= i < n :: r[i] == 1
  {
    var coerced :=
      if spaces.Some?
      then seq(|spaces.value|, i requires 0 <= i < |spaces.value| => NumberOrOne(spaces.value[i]))
      else [];
    if |coerced| != n then seq(n, _ => 1) else coerced
  }

  /** `lessonPairs`: one (id, requested) pair per lesson, in request order. */
  function LessonPairs(ids: seq<ClassId>, spacesArr: seq<int>): (r: seq<LessonPair>)
    requires |spacesArr| == |ids|
    ensures |r| == |ids|
    ensures Ids(r) == ids
    ensures AllPositive(r)
  {
    seq(|ids|, i requires 0 <= i < |ids| => LessonPair(ids[i], AtLeastOne(OrOne(spacesArr[i]))))
  }

  /** Validation followed by normalisation: the line items the handler reserves. */
  function Normalise(body: OrderBody): (r: seq<LessonPair>)
    requires IsValid(body)
    ensures |r| == |body.lessonIDs.value| != 0
  {
    var ids := body.lessonIDs.value;
    LessonPairs(ids, SpacesArr(body.spaces, |ids|))
  }

  /** The seats granted to lesson i: a positive integer given for it in a matching `spaces`, else 1. */
  function Granted(spaces: Option<seq<Count>>, n: nat, i: nat): int {
    if spaces.Some? && |spaces.value| == n && i < n && spaces.value[i].Numeric? && spaces.value[i].n >= 1
    then spaces.value[i].n
    else 1
  }

  /**
   * Normalisation keeps the lessons and their order, and every requested
   * count is the granted one: a non-numeric, zero or negative entry, or any
   * entry of a missing or mismatched `spaces`, becomes 1.
   */
  lemma NormaliseGrants(body: OrderBody)
    requires IsValid(body)
    ensures var r, ids := Normalise(body), body.lessonIDs.value;
      && Ids(r) == ids
      && forall i | 0 <= i < |r| :: r[i].requested == Granted(body.spaces, |ids|, i) >= 1
  {
  }
}
