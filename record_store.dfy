/**
 * The three mock services (domains, purchases, founder-pass perks).  Each is
 * a module-level array of records keyed by `Id` with getAll, getById,
 * create, update and delete; the three differ only in the fields `create`
 * forces and in the not-found message, so one `Store` class serves all
 * three, parameterised by the entity it holds.  The artificial network delay
 * is left out and every call is atomic; the clock reading `new
 * Date().toISOString()` is the parameter `now`.
 */
module RecordStore {
  import opened JsValues

  datatype Result<T> = Ok(value: T) | Err(message: string)

  datatype Entity = Domains | Purchases | Perks

  /** The message each service throws when no record has the Id. */
  function NotFoundMessage(e: Entity): string
  {
    match e
    case Domains => "Domain not found"
    case Purchases => "Purchase not found"
    case Perks => "Perk not found"
  }

  function IdOf(r: Record): Value
  {
    Get(r, "Id")
  }

  /** The search predicate of find/findIndex: `r.Id === id`. */
  predicate HasId(r: Record, id: Value)
  {
    StrictEq(IdOf(r), id)
  }

  /** Every record's Id is a number, so Math.max over the Ids is a number. */
  predicate AllIdsNumeric(rs: seq<Record>)
  {
    forall i | 0 <= i < |rs| :: IsNumber(IdOf(rs[i]))
  }

  /** No two records share an Id in the sense of `===`. */
  predicate UniqueIds(rs: seq<Record>)
  {
    forall i, j | 0 <= i < j < |rs| :: !StrictEq(IdOf(rs[i]), IdOf(rs[j]))
  }

  // ---------------------------------------------------------------------------
  // Math.max(...records.map(r => r.Id)) + 1
  // ---------------------------------------------------------------------------

  /** `Math.max(a, b)` on numbers: NaN wins, -Infinity loses. */
  function Max2(a: Value, b: Value): Value
    requires IsNumber(a) && IsNumber(b)
  {
    if a.NaNValue? || b.NaNValue? then NaNValue
    else if a.NegInfinity? then b
    else if b.NegInfinity? then a
    else Int(if a.i >= b.i then a.i else b.i)
  }

  /**
   * `Math.max` over all Ids: NaN as soon as one Id is NaN, -Infinity when
   * every Id is -Infinity (in particular for an empty store), and otherwise
   * the largest integer Id.
   */
  function MaxId(rs: seq<Record>): (m: Value)
    requires AllIdsNumeric(rs)
    ensures IsNumber(m)
    ensures m.NaNValue? <==> exists i | 0 <= i < |rs| :: IdOf(rs[i]).NaNValue?
    ensures m.NegInfinity? <==> forall i | 0 <= i < |rs| :: IdOf(rs[i]).NegInfinity?
    ensures m.Int? ==> exists i | 0 <= i < |rs| :: IdOf(rs[i]) == m
    ensures m.Int? ==> forall i | 0 <= i < |rs| && IdOf(rs[i]).Int? :: IdOf(rs[i]).i <= m.i
  {
    if rs == [] then NegInfinity
    else
      var init := rs[..|rs| - 1];
      assert forall i | 0 <= i < |init| :: init[i] == rs[i];
      Max2(MaxId(init), IdOf(rs[|rs| - 1]))
  }

  /** `x + 1` on numbers: NaN and -Infinity absorb the addition. */
  function PlusOne(v: Value): Value
  {
    if v.Int? then Int(v.i + 1) else v
  }

  /** The Id `create` assigns. */
  function NextId(rs: seq<Record>): Value
    requires AllIdsNumeric(rs)
  {
    PlusOne(MaxId(rs))
  }

  /** `Array.prototype.findIndex(r => r.Id === id)`: the first match, or -1. */
  function FindIndex(rs: seq<Record>, id: Value): (k: int)
    ensures -1 <= k < |rs|
    ensures k == -1 <==> forall i | 0 <= i < |rs| :: !HasId(rs[i], id)
    ensures k >= 0 ==> HasId(rs[k], id) && forall i | 0 <= i < k :: !HasId(rs[i], id)
  {
    if rs == [] then -1
    else if HasId(rs[0], id) then 0
    else
      var k := FindIndex(rs[1..], id);
      if k == -1 then -1 else k + 1
  }

  /** The properties `create` writes over the caller's data, per service. */
  function Overrides(e: Entity, id: Value, now: string): Record
  {
    match e
    case Domains => map["Id" := id, "createdAt" := Str(now), "status" := Str("pending-approval")]
    case Purchases =>
      map["Id" := id, "status" := Str("processing"), "transferStatus" := Str("initiated"), "purchaseDate" := Str(now)]
    case Perks => map["Id" := id, "createdAt" := Str(now)]
  }

  /** The record `create` appends: `{ ...data, Id: max + 1, ... }`. */
  function Created(e: Entity, rs: seq<Record>, data: Record, now: string): Record
    requires AllIdsNumeric(rs)
  {
    data + Overrides(e, NextId(rs), now)
  }

  /** The record `update` stores: `{ ...old, ...patch, updatedAt: now }`. */
  function Merged(prior: Record, patch: Record, now: string): Record
  {
    prior + patch + map["updatedAt" := Str(now)]
  }

  /** One service's module-level array. */
  class Store {
    const entity: Entity
    var records: seq<Record>

    ghost predicate Valid()
      reads this
    {
      AllIdsNumeric(records)
    }

    constructor (entity: Entity, initial: seq<Record>)
      requires AllIdsNumeric(initial)
      ensures Valid()
      ensures this.entity == entity && records == initial
    {
      this.entity := entity;
      records := initial;
    }

    /** `getAll`: a copy of the array. */
    method GetAll() returns (all: seq<Record>)
      ensures all == records
    {
      all := records;
    }

    /** `getById`: the first record whose Id is `id`, or the not-found error. */
    method GetById(id: Value) returns (r: Result<Record>)
      ensures r.Err? <==> forall i | 0 <= i < |records| :: !HasId(records[i], id)
      ensures r.Err? ==> r.message == NotFoundMessage(entity)
      ensures r.Ok? ==> var k := FindIndex(records, id); k >= 0 && r.value == records[k]
    {
      var k := FindIndex(records, id);
      if k == -1 {
        r := Err(NotFoundMessage(entity));
      } else {
        r := Ok(records[k]);
      }
    }

    /** `create`: appends the caller's data with a fresh Id and the service's forced fields. */
    method Create(data: Record, now: string) returns (created: Record)
      requires Valid()
      modifies this
      ensures Valid()
      ensures created == Created(entity, old(records), data, now)
      ensures records == old(records) + [created]
    {
      created := Created(entity, records, data, now);
      records := records + [created];
    }

    /** `update`: merges `patch` into the first record with that Id. */
    method Update(id: Value, patch: Record, now: string) returns (r: Result<Record>)
      requires Valid()
      requires "Id" in patch ==> IsNumber(patch["Id"])
      modifies this
      ensures Valid()
      ensures var k := FindIndex(old(records), id);
        if k == -1 then r == Err(NotFoundMessage(entity)) && records == old(records)
        else r == Ok(Merged(old(records)[k], patch, now)) && records == old(records)[k := r.value]
    {
      var k := FindIndex(records, id);
      if k == -1 {
        r := Err(NotFoundMessage(entity));
      } else {
        var merged := Merged(records[k], patch, now);
        records := records[k := merged];
        r := Ok(merged);
      }
    }

    /** `delete`: splices the first record with that Id out and returns it. */
    method Delete(id: Value) returns (r: Result<Record>)
      requires Valid()
      modifies this
      ensures Valid()
      ensures var k := FindIndex(old(records), id);
        if k == -1 then r == Err(NotFoundMessage(entity)) && records == old(records)
        else r == Ok(old(records)[k]) && records == old(records)[..k] + old(records)[k + 1..]
    {
      var k := FindIndex(records, id);
      if k == -1 {
        r := Err(NotFoundMessage(entity));
      } else {
        r := Ok(records[k]);
        records := records[..k] + records[k + 1..];
      }
    }
  }

  // ---------------------------------------------------------------------------
  // Properties of the store operations
  // ---------------------------------------------------------------------------

  /** A created domain is pending approval whatever the caller passed; its other fields are the caller's. */
  lemma CreatedDomainFields(rs: seq<Record>, data: Record, now: string)
    requires AllIdsNumeric(rs)
    ensures var c := Created(Domains, rs, data, now);
      && IdOf(c) == NextId(rs) && c["status"] == Str("pending-approval") && c["createdAt"] == Str(now)
      && c.Keys == data.Keys + {"Id", "createdAt", "status"}
      && forall k | k in data && k !in {"Id", "createdAt", "status"} :: c[k] == data[k]
  {
  }

  /** A created purchase is processing with its transfer initiated, whatever the caller passed. */
  lemma CreatedPurchaseFields(rs: seq<Record>, data: Record, now: string)
    requires AllIdsNumeric(rs)
    ensures var c := Created(Purchases, rs, data, now);
      && IdOf(c) == NextId(rs) && c["status"] == Str("processing")
      && c["transferStatus"] == Str("initiated") && c["purchaseDate"] == Str(now)
      && c.Keys == data.Keys + {"Id", "status", "transferStatus", "purchaseDate"}
      && forall k | k in data && k !in {"Id", "status", "transferStatus", "purchaseDate"} :: c[k] == data[k]
  {
  }

  /** A created perk gets an Id and createdAt and nothing else: no status is added. */
  lemma CreatedPerkFields(rs: seq<Record>, data: Record, now: string)
    requires AllIdsNumeric(rs)
    ensures var c := Created(Perks, rs, data, now);
      && IdOf(c) == NextId(rs) && c["createdAt"] == Str(now)
      && Get(c, "status") == Get(data, "status")
      && c.Keys == data.Keys + {"Id", "createdAt"}
      && forall k | k in data && k !in {"Id", "createdAt"} :: c[k] == data[k]
  {
  }

  /** The merged record: the patch wins, `updatedAt` is set, every other field is the old one. */
  lemma MergedFields(prior: Record, patch: Record, now: string)
    ensures var m := Merged(prior, patch, now);
      && m["updatedAt"] == Str(now)
      && m.Keys == prior.Keys + patch.Keys + {"updatedAt"}
      && (forall k | k in patch && k != "updatedAt" :: m[k] == patch[k])
      && (forall k | k in prior && k !in patch && k != "updatedAt" :: m[k] == prior[k])
  {
  }

  /**
   * When some Id is an integer and none is NaN, the new Id is an integer
   * greater than every integer Id in the store.
   */
  lemma {:induction false} NextIdExceedsAll(rs: seq<Record>)
    requires AllIdsNumeric(rs)
    requires exists i | 0 <= i < |rs| :: IdOf(rs[i]).Int?
    requires forall i | 0 <= i < |rs| :: !IdOf(rs[i]).NaNValue?
    ensures NextId(rs).Int?
    ensures forall i | 0 <= i < |rs| && IdOf(rs[i]).Int? :: IdOf(rs[i]).i < NextId(rs).i
  {
    var m := MaxId(rs);
    var i :| 0 <= i < |rs| && IdOf(rs[i]).Int?;
    assert !m.NegInfinity?;
  }

  /**
   * `create` keeps Ids unique unless the new Id is -Infinity, which happens
   * exactly when every Id is -Infinity (an empty store, for one).
   */
  lemma CreateKeepsIdsUnique(e: Entity, rs: seq<Record>, data: Record, now: string)
    requires AllIdsNumeric(rs) && UniqueIds(rs)
    requires !NextId(rs).NegInfinity?
    ensures UniqueIds(rs + [Created(e, rs, data, now)])
  {
    var c := Created(e, rs, data, now);
    var rs' := rs + [c];
    assert IdOf(c) == NextId(rs);
    forall i, j | 0 <= i < j < |rs'|
      ensures !StrictEq(IdOf(rs'[i]), IdOf(rs'[j]))
    {
      if j == |rs| {
        var m := MaxId(rs);
        if m.Int? {
          assert IdOf(rs[i]).Int? ==> IdOf(rs[i]).i <= m.i;
        }
      }
    }
  }

  /**
   * The Id of a store's first record after it was emptied is -Infinity, and
   * a second `create` repeats it: from an empty store, two creates leave two
   * records that both carry Id -Infinity.
   */
  lemma {:induction false} CreateOnEmptyStoreRepeatsId(e: Entity, a: Record, b: Record, now: string, later: string)
    ensures var first := Created(e, [], a, now);
      && IdOf(first) == NegInfinity
      && AllIdsNumeric([first])
      && IdOf(Created(e, [first], b, later)) == NegInfinity
      && !UniqueIds([first, Created(e, [first], b, later)])
  {
    var first := Created(e, [], a, now);
    assert [first][..0] == [];
    assert IdOf(first) == NegInfinity;
    var second := Created(e, [first], b, later);
    assert IdOf(second) == NegInfinity;
    assert StrictEq(IdOf([first, second][0]), IdOf([first, second][1]));
  }

  /** `delete` keeps Ids unique, and the other records keep their order. */
  lemma DeleteKeepsIdsUnique(rs: seq<Record>, k: nat)
    requires UniqueIds(rs) && k < |rs|
    ensures UniqueIds(rs[..k] + rs[k + 1..])
    ensures forall i | 0 <= i < k :: (rs[..k] + rs[k + 1..])[i] == rs[i]
    ensures forall i | k < i < |rs| :: (rs[..k] + rs[k + 1..])[i - 1] == rs[i]
  {
    var rs' := rs[..k] + rs[k + 1..];
    forall i, j | 0 <= i < j < |rs'|
      ensures !StrictEq(IdOf(rs'[i]), IdOf(rs'[j]))
    {
      var i0, j0 := if i < k then i else i + 1, if j < k then j else j + 1;
      assert rs'[i] == rs[i0] && rs'[j] == rs[j0];
    }
  }

  /** An `update` whose patch does not set Id keeps Ids unique. */
  lemma UpdateKeepsIdsUnique(rs: seq<Record>, k: nat, patch: Record, now: string)
    requires UniqueIds(rs) && k < |rs| && "Id" !in patch
    ensures UniqueIds(rs[k := Merged(rs[k], patch, now)])
  {
    assert IdOf(Merged(rs[k], patch, now)) == IdOf(rs[k]);
    var rs' := rs[k := Merged(rs[k], patch, now)];
    assert forall i | 0 <= i < |rs| :: IdOf(rs'[i]) == IdOf(rs[i]);
  }
}
