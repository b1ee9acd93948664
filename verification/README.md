# Elite Barber booking store, modelled in Dafny

The booking server keeps its appointments ("agendamentos") in one module-level
JavaScript array and exposes them through REST handlers: list all, look up one
by id, create with defaults, update by shallow merge, delete one, delete all,
and a status report. At start-up it pushes two test appointments. This project
models that store and those handlers, without the HTTP layer.

- `wrappers.dfy`: `Option`, used for "not found" (a 404 reply) and for `NaN`.
- `json.dfy` (module `Json`): the JavaScript values a JSON body can hold, records as
  `map<string, Value>`, a missing property reading as `undefined`, falsiness, and `a || b`.
- `js_numbers.dfy` (module `JsNumbers`): `parseInt` applied to the `:id` route parameter
  (leading white space, sign, `0x` prefix, longest digit run, `NaN` when there is no digit)
  and the decimal rendering `${n}` used in the delete-all reply.
- `agenda.dfy` (module `Agenda`): the pure meaning of the handlers on the list —
  the first index whose `id` is strictly equal (`===`) to the parsed id, the
  `findIndex` scan, the new record with its defaults, the spread merge, the
  `splice` of one entry, the two seed records — and lemmas relating them.
- `server.dfy` (module `Server`): class `Store` with the field `agendamentos: seq<Record>`
  and one method per handler, each stating the reply and the new list.

Design choices:

- The clock is a parameter: `now` for `Date.now()`, `nowIso` for `new Date().toISOString()`.
  The seed takes two timestamps because it reads the clock twice.
- A route parameter is the string Express passes; the handler parses it with `ParseInt`.
  A `NaN` result (`None`) matches no record.
- Records are values. No handler mutates a record in place: an update replaces the list entry.
  So the references the JavaScript array holds need no modelling.
- The model states only what the code does. It does no field validation, and a create never fails.
  Ids are not unique: a client may supply one, and duplicates are kept.
  An update may overwrite `id` and `createdAt`; `Agenda.UpdateCanRewriteId` shows a record
  becoming unreachable under its old id.
  A record whose `id` is not a number is never found by the id routes
  (`Agenda.NonNumericIdNeverMatches`).
  A second delete of the same id is a 404 only when that id was unique (`Agenda.SecondDeleteNotFound`).

## Model

| member | source | states |
|---|---|---|
| `Json.Or` | server.js:41-51 | JavaScript's `or` operator, used for defaults, yields its left operand when that is truthy and its right operand otherwise; the result is truthy when either operand is |
| `JsNumbers.TrimStart` | server.js:29 | `parseInt` skips exactly the leading white-space characters: what is dropped is white space, and what remains starts with a non-white-space character |
| `JsNumbers.DigitRun` | server.js:29 | `parseInt` reads the longest run of digits in the radix: every character in the run is a digit, and the next one is not |
| `JsNumbers.ParseIntOfIntToString` | server.js:29 | `parseInt` reads back the decimal rendering of any integer, sign included, even when non-alphanumeric text follows it |
| `JsNumbers.ParseIntSkipsWhiteSpace` | server.js:62 | leading white space in the id parameter never changes the parsed id |
| `JsNumbers.NatToStringValue` | server.js:96 | the digits `${total}` produces denote `total` |
| `Server.DeletedMessage` | server.js:96 | the delete-all reply text begins with the count, and `parseInt` of the text gives that count back |
| `Json.Field` | server.js:41-51 | reading a property of the body gives its value when present and `undefined` when absent |
| `Json.Falsy` | server.js:41-51 | falsiness case by case: `undefined` and `null` are falsy, a boolean when false, a number when zero, a string when empty; arrays and objects never are |
| `JsNumbers.ParseInt` | server.js:29 | `parseInt` gives a number exactly when, after the white space and at most one sign, the text starts with a decimal digit that is not the `0` of a `0x` prefix, or with such a prefix and a hexadecimal digit; a negative result needs a leading `-` |
| `JsNumbers.ParseSigned` | server.js:62 | after the white space, the sign does not decide whether a number is found; only a `-` makes the result negative, and after a `-` it is never positive |
| `JsNumbers.ParseMagnitude` | server.js:80 | the unsigned part is a number exactly when it starts with a decimal digit outside a `0x` prefix or with a `0x` prefix and a hexadecimal digit; the number is never negative |
| `JsNumbers.ParseIntSign` | server.js:29 | directly before the number, a `+` changes nothing and a `-` negates the result; `NaN` stays `NaN` |
| `JsNumbers.ParseIntHex` | server.js:29 | after a `0x` prefix the hexadecimal digits are read in radix 16 up to the first character that is not one |
| `JsNumbers.ParseIntDecimal` | server.js:29 | without a `0x` prefix, the longest run of decimal digits is read in radix 10 up to the first character that is no decimal digit, leading zeros included, for every digit string and tail |
| `Agenda.Matches` | server.js:29 | `NaN` and a record without an id never match; a match means the record's id is a number equal to the parsed id |
| `Agenda.CreatedFieldRule` | server.js:41-51 | a truthy body value is always kept; a property without a default is copied from the body; a defaulted property with a falsy or missing body value takes its default |
| `Agenda.FirstMatch` | server.js:29 | the index found is -1 exactly when no record's id equals the parsed id; otherwise that record matches and no earlier one does |
| `Agenda.FindIndex` | server.js:62 | the left-to-right `findIndex` scan returns exactly that first matching index, or -1 |
| `Agenda.NewAppointment` | server.js:40-52 | the new record has exactly the eleven appointment properties, so extra body properties are dropped; name, phone, email, service, date and time are copied as given; the status is always truthy, and the id is truthy whenever the clock is non-zero |
| `Agenda.NewAppointmentDefaults` | server.js:41-51 | a truthy body value of id, notes, status, servicePrice or createdAt is kept; a falsy or missing one becomes `now`, `''`, `'PENDENTE'`, `0` or `nowIso` |
| `Agenda.Merged` | server.js:65-69 | after the merge every body property has the body's value, id and createdAt included; every other property keeps its old value; updatedAt is the new timestamp; the keys are the union plus updatedAt |
| `Agenda.RemoveAt` | server.js:83 | `splice(i, 1)` leaves one entry fewer, with the entries before `i` in place and the later ones shifted down by one, in order; together with the removed entry they are the old list as a multiset |
| `Agenda.SeedJoao` | server.js:138-150 | the first test record has the eleven appointment properties and id 1 |
| `Agenda.SeedMaria` | server.js:152-164 | the second test record has the eleven appointment properties and id 2 |
| `Agenda.SeededLookups` | server.js:138-164 | in the seeded list, id 1 is found at index 0 and id 2 at index 1; once only the first record remains, id 2 is not found |
| `Agenda.NonNumericIdNeverMatches` | server.js:29 | the strict `===` never matches a record whose id is not a number |
| `Agenda.FirstMatchAfterAppend` | server.js:54 | after a create, a lookup still finds an earlier record with the id first; it finds the new record only when no earlier one has its id |
| `Agenda.NoMatchIffCountZero` | server.js:80-82 | `findIndex` gives -1 exactly when no record carries the id |
| `Agenda.CountMatchesRemoveAt` | server.js:83 | removing one entry lowers the number of records with an id by one exactly when that entry carries the id |
| `Agenda.SecondDeleteNotFound` | server.js:79-89 | after the first matching record is deleted, a second delete of the same id is a 404 exactly when the id was carried by one record only |
| `Agenda.UpdateKeepsFirstMatch` | server.js:61-72 | an update whose body has no id leaves the updated record as the one the id finds |
| `Agenda.UpdateCanRewriteId` | server.js:61-72 | for every list and every body carrying an id other than the one looked up: the updated record no longer matches that id, and a later lookup of it finds only a later record or nothing |
| `Server.Store.constructor` | server.js:15 | the store starts empty |
| `Server.Store.List` | server.js:22-25 | the reply is the whole list in insertion order |
| `Server.Store.Get` | server.js:28-35 | the reply is the record at the first matching index, or `None` (404) when none matches; the store is not changed |
| `Server.Store.Create` | server.js:39-58 | the reply is the record with its defaults; the list grows by one, at the end, and the earlier records are unchanged and in order |
| `Server.Store.Update` | server.js:61-76 | on a match, the entry at the first matching index is replaced by the merged record, which is the reply; the length and every other entry are unchanged. Without a match the reply is `None` (404) and the list is unchanged |
| `Server.Store.Delete` | server.js:79-89 | on a match, the first matching record is removed and is the reply; the length drops by one and the rest keep their order. Without a match the reply is `None` (404) and the list is unchanged |
| `Server.Store.DeleteAll` | server.js:92-97 | the reply counts the records that were there, and the list is empty afterwards |
| `Server.Store.Status` | server.js:100-106 | the status is `online`, with the given timestamp and the current number of records |
| `Server.Store.SeedTestData` | server.js:138-164 | the two test records are appended in order |

## Left out

- The Express app, middleware, body parsing, response objects and status codes (server.js:1-12). A 404 reply is `None`, and the error and confirmation texts of the JSON replies are not modelled. The delete-all message is the exception.
- `console.log` output. It is logging only.
- The HTML routes and `app.listen` (server.js:112-131). They serve files and start the process.
- `public/service-worker.js` is not part of this model. It is browser caching, fetch and push-notification event handling.
- Real clock readings. They are parameters.
- Numbers are reals. Floating-point rounding is not modelled, so `parseInt` of a digit string beyond 2^53 is exact here but rounds in JavaScript. Overflow to `Infinity` is not modelled either: an id beyond the double range (`1e999` in a body, or a `parseInt` whose value is above about 1.8e308, which takes 309 digits or more) is `Infinity` in JavaScript, so two such ids are equal there but not here. `-0` is not distinguished from `0`; `===` treats them alike anyway.
- The order of an object's properties. It shows only in the JSON text of a reply.
- Request bodies that are JSON arrays rather than objects.
- Persistence to a file, serialized access, field validation, e-mail, statistics and filtering by date. The code has none of these.
