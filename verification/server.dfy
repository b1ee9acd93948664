/**
 * The booking server's in-memory database: the module-level list
 * `agendamentos` and the REST handlers that read and change it. HTTP
 * plumbing is gone: a route parameter arrives as the string Express hands
 * over, a JSON body as a record, the clock as parameters, and a 404 reply
 * as `None`.
 */
module Server {
  import opened Wrappers
  import opened Json
  import opened JsNumbers
  import opened Agenda

  /** The reply of `GET /api/status`. */
  datatype StatusReport = StatusReport(status: string, timestamp: string, totalAgendamentos: nat)

  /** The text of the reply to `DELETE /api/agendamentos`, from the number of records removed. */
  function DeletedMessage(total: nat): (m: string)
    ensures ParseInt(m) == Some(total)
  {
    ParseIntOfIntToString(total, " agendamentos excluídos");
    NatToString(total) + " agendamentos excluídos"
  }

  class Store {
    /** The appointments, in insertion order. */
    var agendamentos: seq<Record>

    /** `let agendamentos = []`. */
    constructor ()
      ensures agendamentos == []
    {
      agendamentos := [];
    }

    /** `GET /api/agendamentos`: the whole list, in insertion order. */
    method List() returns (all: seq<Record>)
      ensures all == agendamentos
    {
      all := agendamentos;
    }

    /**
     * `GET /api/agendamentos/:id`: the first record whose id is the parsed
     * parameter, or `None` (404) when there is none. Nothing changes.
     */
    method Get(idParam: string) returns (found: Option<Record>)
      ensures var i := FirstMatch(agendamentos, ParseInt(idParam));
        if i == -1 then found == None else found == Some(agendamentos[i])
    {
      var index := FindIndex(agendamentos, ParseInt(idParam));
      if index != -1 {
        found := Some(agendamentos[index]);
      } else {
        found := None;
      }
    }

    /**
     * `POST /api/agendamentos`: builds the record with its defaults,
     * appends it after every existing record and returns it (201).
     */
    method Create(body: Record, now: int, nowIso: string) returns (created: Record)
      modifies this
      ensures created == NewAppointment(body, now, nowIso)
      ensures agendamentos == old(agendamentos) + [created]
      ensures |agendamentos| == |old(agendamentos)| + 1
      ensures forall j :: 0 <= j < |old(agendamentos)| ==> agendamentos[j] == old(agendamentos)[j]
    {
      created := NewAppointment(body, now, nowIso);
      agendamentos := agendamentos + [created];
    }

    /**
     * `PUT /api/agendamentos/:id`: merges the body into the first record
     * with the id and stamps updatedAt; every other record stays as it
     * was. Without such a record, `None` (404) and nothing changes.
     */
    method Update(idParam: string, body: Record, nowIso: string) returns (updated: Option<Record>)
      modifies this
      ensures var i := FirstMatch(old(agendamentos), ParseInt(idParam));
        if i == -1 then
          updated == None && agendamentos == old(agendamentos)
        else
          && updated == Some(Merged(old(agendamentos)[i], body, nowIso))
          && agendamentos == old(agendamentos)[i := updated.value]
      ensures |agendamentos| == |old(agendamentos)|
      ensures forall j :: 0 <= j < |agendamentos| && j != FirstMatch(old(agendamentos), ParseInt(idParam)) ==>
        agendamentos[j] == old(agendamentos)[j]
    {
      var index := FindIndex(agendamentos, ParseInt(idParam));
      if index != -1 {
        var merged := Merged(agendamentos[index], body, nowIso);
        agendamentos := agendamentos[index := merged];
        updated := Some(agendamentos[index]);
      } else {
        updated := None;
      }
    }

    /**
     * `DELETE /api/agendamentos/:id`: removes the first record with the id
     * and returns it; the others keep their order. Without such a record,
     * `None` (404) and nothing changes.
     */
    method Delete(idParam: string) returns (removed: Option<Record>)
      modifies this
      ensures var i := FirstMatch(old(agendamentos), ParseInt(idParam));
        if i == -1 then
          removed == None && agendamentos == old(agendamentos)
        else
          && removed == Some(old(agendamentos)[i])
          && agendamentos == RemoveAt(old(agendamentos), i)
      ensures removed.Some? ==> |agendamentos| == |old(agendamentos)| - 1
      ensures removed.Some? ==> multiset(agendamentos) + multiset{removed.value} == multiset(old(agendamentos))
    {
      var index := FindIndex(agendamentos, ParseInt(idParam));
      if index != -1 {
        removed := Some(agendamentos[index]);
        agendamentos := RemoveAt(agendamentos, index);
      } else {
        removed := None;
      }
    }

    /**
     * `DELETE /api/agendamentos`: empties the list and reports how many
     * records it held.
     */
    method DeleteAll() returns (total: nat, message: string)
      modifies this
      ensures total == |old(agendamentos)|
      ensures agendamentos == []
      ensures message == DeletedMessage(total)
    {
      total := |agendamentos|;
      agendamentos := [];
      message := DeletedMessage(total);
    }

    /** `GET /api/status`: the server is online and the total is the current number of records. */
    method Status(nowIso: string) returns (report: StatusReport)
      ensures report.status == "online"
      ensures report.timestamp == nowIso
      ensures report.totalAgendamentos == |agendamentos|
    {
      report := StatusReport("online", nowIso, |agendamentos|);
    }

    /** The two test records pushed at start-up, each with its own clock reading. */
    method SeedTestData(createdAt1: string, createdAt2: string)
      modifies this
      ensures agendamentos == old(agendamentos) + [SeedJoao(createdAt1), SeedMaria(createdAt2)]
    {
      agendamentos := agendamentos + [SeedJoao(createdAt1)];
      agendamentos := agendamentos + [SeedMaria(createdAt2)];
    }
  }
}
