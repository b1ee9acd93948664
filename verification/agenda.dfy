/**
 * The appointment ("agendamento") records of the barbershop booking server
 * and the pure meaning of each handler on the list `agendamentos`: finding
 * the first record with a given id, building a new record with its
 * defaults, merging an update body into a record, and removing one entry.
 */
module Agenda {
  import opened Wrappers
  import opened Json

  /** The eleven properties of a record built by the create handler. */
  const AppointmentFields: set<string> :=
    {"id", "name", "phone", "email", "service", "date", "time",
     "notes", "status", "servicePrice", "createdAt"}

  /** The properties copied from the body without a default. */
  const PassThroughFields: set<string> := {"name", "phone", "email", "service", "date", "time"}

  /** The status a new appointment gets when the body gives none. */
  const Pending := "PENDENTE"

  /** `a.id === parseInt(param)`: a number equal to the parsed id; NaN (`None`) equals nothing. */
  predicate Matches(rec: Record, id: Option<int>): (b: bool)
    ensures id.None? ==> !b
    ensures "id" !in rec ==> !b
    ensures b ==> rec["id"].Num? && rec["id"].x == id.value as real
  {
    id.Some? && Field(rec, "id") == Num(id.value as real)
  }

  /**
   * The index `findIndex` returns: the first record matching `id`, or -1
   * when no record matches.
   */
  function FirstMatch(s: seq<Record>, id: Option<int>): (i: int)
    ensures -1 <= i < |s|
    ensures i == -1 <==> forall j :: 0 <= j < |s| ==> !Matches(s[j], id)
    ensures 0 <= i ==> Matches(s[i], id) && forall j :: 0 <= j < i ==> !Matches(s[j], id)
  {
    if |s| == 0 then -1
    else if Matches(s[0], id) then 0
    else
      var k := FirstMatch(s[1..], id);
      assert forall j :: 1 <= j < |s| ==> s[j] == s[1..][j - 1];
      if k == -1 then -1 else k + 1
  }

  /** `Array.prototype.findIndex` with the predicate `a => a.id === id`: a left-to-right scan. */
  method FindIndex(s: seq<Record>, id: Option<int>) returns (index: int)
    ensures index == FirstMatch(s, id)
  {
    index := 0;
    while index < |s| && !Matches(s[index], id)
      invariant 0 <= index <= |s|
      invariant forall j :: 0 <= j < index ==> !Matches(s[j], id)
    {
      index := index + 1;
    }
    if index == |s| {
      index := -1;
    }
  }

  /** How many records carry the id; the store does not keep ids unique. */
  function CountMatches(s: seq<Record>, id: Option<int>): nat {
    if |s| == 0 then 0
    else (if Matches(s[0], id) then 1 else 0) + CountMatches(s[1..], id)
  }

  /** The fallback of each property the create handler defaults with `||`. */
  function Defaults(now: int, nowIso: string): map<string, Value> {
    map["id" := Num(now as real), "notes" := Str(""), "status" := Str(Pending),
        "servicePrice" := Num(0.0), "createdAt" := Str(nowIso)]
  }

  /**
   * The value the create handler gives property `k` of the new record: the
   * id, notes, status, servicePrice and createdAt fall back to a default
   * when the body's value is falsy (`body.k || default`); the other
   * properties are copied as they are, possibly `undefined`.
   */
  function CreatedField(body: Record, k: string, now: int, nowIso: string): Value {
    if k == "id" then Or(Field(body, "id"), Num(now as real))
    else if k == "notes" then Or(Field(body, "notes"), Str(""))
    else if k == "status" then Or(Field(body, "status"), Str(Pending))
    else if k == "servicePrice" then Or(Field(body, "servicePrice"), Num(0.0))
    else if k == "createdAt" then Or(Field(body, "createdAt"), Str(nowIso))
    else Field(body, k)
  }

  /**
   * Each property of a new record: a truthy body value is always kept, a
   * property without a default is copied from the body, and a defaulted
   * property whose body value is falsy or missing takes its default.
   */
  lemma CreatedFieldRule(body: Record, k: string, now: int, nowIso: string)
    ensures Truthy(Field(body, k)) ==> CreatedField(body, k, now, nowIso) == Field(body, k)
    ensures k !in Defaults(now, nowIso) ==> CreatedField(body, k, now, nowIso) == Field(body, k)
    ensures k in Defaults(now, nowIso) && Falsy(Field(body, k)) ==>
      CreatedField(body, k, now, nowIso) == Defaults(now, nowIso)[k]
  {
  }

  /**
   * The record the create handler builds from the request body: exactly
   * the eleven appointment properties, so any other property of the body
   * is dropped.
   */
  function NewAppointment(body: Record, now: int, nowIso: string): (r: Record)
    ensures r.Keys == AppointmentFields
    ensures forall k :: k in PassThroughFields ==> r[k] == Field(body, k)
    ensures Truthy(r["status"])
    ensures now != 0 ==> Truthy(r["id"])
  {
    PassThroughNotDefaulted();
    map k | k in AppointmentFields :: CreatedField(body, k, now, nowIso)
  }

  /** No property copied as given is one of those with a default. */
  lemma PassThroughNotDefaulted()
    ensures forall k :: k in PassThroughFields ==>
      k != "id" && k != "notes" && k != "status" && k != "servicePrice" && k != "createdAt"
  {
  }

  /**
   * `{...rec, ...body, updatedAt: nowIso}`: every property of the body wins
   * over the record's (the id and createdAt included), the others are
   * kept, and updatedAt is always the new timestamp.
   */
  function Merged(rec: Record, body: Record, nowIso: string): (r: Record)
    ensures r.Keys == rec.Keys + body.Keys + {"updatedAt"}
    ensures r["updatedAt"] == Str(nowIso)
    ensures forall k :: k in body && k != "updatedAt" ==> r[k] == body[k]
    ensures forall k :: k in rec && k !in body && k != "updatedAt" ==> r[k] == rec[k]
  {
    rec + body + map["updatedAt" := Str(nowIso)]
  }

  /** `s.splice(i, 1)` on the list: the entry at `i` is gone and the others keep their order. */
  function RemoveAt(s: seq<Record>, i: nat): (r: seq<Record>)
    requires i < |s|
    ensures |r| == |s| - 1
    ensures forall j :: 0 <= j < i ==> r[j] == s[j]
    ensures forall j :: i <= j < |r| ==> r[j] == s[j + 1]
    ensures multiset(r) + multiset{s[i]} == multiset(s)
  {
    assert s == s[..i] + [s[i]] + s[i + 1..];
    s[..i] + s[i + 1..]
  }

  /** The first test record the server adds at start-up. */
  function SeedJoao(createdAt: string): (r: Record)
    ensures r.Keys == AppointmentFields
    ensures Matches(r, Some(1))
  {
    map[
      "id" := Num(1.0),
      "name" := Str("João Silva"),
      "phone" := Str("(31) 99999-9999"),
      "email" := Str("joao@email.com"),
      "service" := Str("Corte + Barba"),
      "date" := Str("25/12/2024"),
      "time" := Str("14:00"),
      "notes" := Str("Primeiro cliente"),
      "status" := Str("CONFIRMADO"),
      "servicePrice" := Num(70.0),
      "createdAt" := Str(createdAt)
    ]
  }

  /** The second test record the server adds at start-up. */
  function SeedMaria(createdAt: string): (r: Record)
    ensures r.Keys == AppointmentFields
    ensures Matches(r, Some(2))
  {
    map[
      "id" := Num(2.0),
      "name" := Str("Maria Santos"),
      "phone" := Str("(31) 98888-8888"),
      "email" := Str("maria@email.com"),
      "service" := Str("Corte Clássico"),
      "date" := Str("26/12/2024"),
      "time" := Str("15:30"),
      "notes" := Str(""),
      "status" := Str(Pending),
      "servicePrice" := Num(45.0),
      "createdAt" := Str(createdAt)
    ]
  }

  // Lemmas relating the handlers to one another.

  /** A truthy value in the body is kept; a falsy or missing one gives way to the default. */
  lemma NewAppointmentDefaults(body: Record, now: int, nowIso: string)
    ensures var r := NewAppointment(body, now, nowIso);
      && (Truthy(Field(body, "id")) ==> r["id"] == body["id"])
      && (Falsy(Field(body, "id")) ==> r["id"] == Num(now as real))
      && (Truthy(Field(body, "notes")) ==> r["notes"] == body["notes"])
      && (Falsy(Field(body, "notes")) ==> r["notes"] == Str(""))
      && (Truthy(Field(body, "status")) ==> r["status"] == body["status"])
      && (Falsy(Field(body, "status")) ==> r["status"] == Str(Pending))
      && (Truthy(Field(body, "servicePrice")) ==> r["servicePrice"] == body["servicePrice"])
      && (Falsy(Field(body, "servicePrice")) ==> r["servicePrice"] == Num(0.0))
      && (Truthy(Field(body, "createdAt")) ==> r["createdAt"] == body["createdAt"])
      && (Falsy(Field(body, "createdAt")) ==> r["createdAt"] == Str(nowIso))
  {
  }

  /** In the seeded list, id 1 is the first record, id 2 the second, and id 2 is absent once only the first remains. */
  lemma SeededLookups(createdAt1: string, createdAt2: string)
    ensures FirstMatch([SeedJoao(createdAt1), SeedMaria(createdAt2)], Some(1)) == 0
    ensures FirstMatch([SeedJoao(createdAt1), SeedMaria(createdAt2)], Some(2)) == 1
    ensures FirstMatch([SeedJoao(createdAt1)], Some(2)) == -1
  {
  }

  /**
   * The comparison is strict: a record whose id was sent as a string (or
   * anything but a number) is never found by the id routes.
   */
  lemma NonNumericIdNeverMatches(rec: Record, id: Option<int>)
    requires !Field(rec, "id").Num?
    ensures !Matches(rec, id)
  {
  }

  /** A record added at the end is found by its id only when no earlier record has that id. */
  lemma FirstMatchAfterAppend(s: seq<Record>, r: Record, id: Option<int>)
    ensures FirstMatch(s + [r], id) ==
      if FirstMatch(s, id) >= 0 then FirstMatch(s, id)
      else if Matches(r, id) then |s|
      else -1
  {
    var t := s + [r];
    assert forall j :: 0 <= j < |s| ==> t[j] == s[j];
    assert t[|s|] == r;
  }

  lemma {:induction false} CountMatchesConcat(a: seq<Record>, b: seq<Record>, id: Option<int>)
    ensures CountMatches(a + b, id) == CountMatches(a, id) + CountMatches(b, id)
  {
    if |a| == 0 {
      assert a + b == b;
    } else {
      assert (a + b)[1..] == a[1..] + b;
      CountMatchesConcat(a[1..], b, id);
    }
  }

  /** No record carries the id exactly when `findIndex` gives -1. */
  lemma {:induction false} NoMatchIffCountZero(s: seq<Record>, id: Option<int>)
    ensures FirstMatch(s, id) == -1 <==> CountMatches(s, id) == 0
  {
    if |s| > 0 {
      NoMatchIffCountZero(s[1..], id);
    }
  }

  /** Removing an entry lowers the number of records with the id by one exactly when that entry has it. */
  lemma CountMatchesRemoveAt(s: seq<Record>, i: nat, id: Option<int>)
    requires i < |s|
    ensures CountMatches(RemoveAt(s, i), id) == CountMatches(s, id) - (if Matches(s[i], id) then 1 else 0)
  {
    assert s == s[..i] + ([s[i]] + s[i + 1..]);
    CountMatchesConcat(s[..i], [s[i]] + s[i + 1..], id);
    CountMatchesConcat([s[i]], s[i + 1..], id);
    CountMatchesConcat(s[..i], s[i + 1..], id);
    assert CountMatches([s[i]], id) == (if Matches(s[i], id) then 1 else 0) by {
      assert [s[i]][1..] == [];
    }
  }

  /**
   * After the first record with an id is deleted, a second delete of the
   * same id finds nothing exactly when the id was carried by one record
   * only: with duplicate ids the second delete removes the next one.
   */
  lemma SecondDeleteNotFound(s: seq<Record>, id: Option<int>)
    requires FirstMatch(s, id) >= 0
    ensures FirstMatch(RemoveAt(s, FirstMatch(s, id)), id) == -1 <==> CountMatches(s, id) == 1
  {
    var i := FirstMatch(s, id);
    CountMatchesRemoveAt(s, i, id);
    NoMatchIffCountZero(RemoveAt(s, i), id);
  }

  /** An update whose body has no id leaves the record where `findIndex` finds it. */
  lemma UpdateKeepsFirstMatch(s: seq<Record>, id: Option<int>, body: Record, nowIso: string)
    requires FirstMatch(s, id) >= 0
    requires "id" !in body
    ensures var i := FirstMatch(s, id); FirstMatch(s[i := Merged(s[i], body, nowIso)], id) == i
  {
    var i := FirstMatch(s, id);
    var t := s[i := Merged(s[i], body, nowIso)];
    assert Matches(t[i], id);
    assert forall j :: 0 <= j < i ==> t[j] == s[j];
  }

  /**
   * The update does not protect the id: when the body carries an id other
   * than the one looked up, the record is no longer found at its index,
   * and a later lookup of that id finds only a later record or nothing.
   */
  lemma UpdateCanRewriteId(s: seq<Record>, id: Option<int>, body: Record, nowIso: string)
    requires FirstMatch(s, id) >= 0
    requires "id" in body && !Matches(map["id" := body["id"]], id)
    ensures var i := FirstMatch(s, id);
            var t := s[i := Merged(s[i], body, nowIso)];
            !Matches(t[i], id) && (FirstMatch(t, id) == -1 || FirstMatch(t, id) > i)
  {
    var i := FirstMatch(s, id);
    var t := s[i := Merged(s[i], body, nowIso)];
    assert forall j :: 0 <= j < i ==> t[j] == s[j];
  }
}
