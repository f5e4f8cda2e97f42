/** The patient cache of the client (src/context/PatientContext.js,
    `PatientProvider`). Each operation takes the service replies it awaits as
    parameters; a state setter takes effect at once. */
module PatientContext {
  import opened Js
  import opened ListOps
  import opened ClientCache

  /** The dashboard counters. */
  datatype Statistics = Statistics(totalPatients: int, criticalPatients: int, activePatients: int, stablePatients: int)

  const ZERO_STATISTICS: Statistics := Statistics(0, 0, 0, 0)

  class PatientProvider {
    var patients: seq<Doc>
    var selected: Option<Doc>
    var statistics: Statistics
    var isLoading: bool
    var error: Option<string>

    /** The initial state: no patients, none selected, every counter zero,
        idle, no error. */
    constructor()
      ensures patients == [] && selected.None? && statistics == ZERO_STATISTICS && !isLoading && error.None?
    {
      patients := [];
      selected := None;
      statistics := ZERO_STATISTICS;
      isLoading := false;
      error := None;
    }

    /** The catch clause of a loading operation: a thrown call records its
        message, or the fallback, as the error. */
    method Fail<T>(reply: Reply<T>, fallback: string)
      modifies this
      ensures patients == old(patients) && selected == old(selected) && statistics == old(statistics)
      ensures isLoading == old(isLoading)
      ensures reply.Thrown? ==> error == Some(ErrorText(reply.message, fallback))
      ensures reply.Replied? ==> error == old(error)
    {
      if reply.Thrown? {
        error := Some(ErrorText(reply.message, fallback));
      }
    }

    /** `fetchPatients(params)`: a successful reply replaces the list wholesale. */
    method FetchPatients(reply: Reply<seq<Doc>>) returns (out: Outcome<seq<Doc>>)
      modifies this
      ensures out == Relay(reply)
      ensures !isLoading && selected == old(selected) && statistics == old(statistics)
      ensures patients == (if out.success then reply.data else old(patients))
      ensures error == (if reply.Thrown? then Some(ErrorText(reply.message, "Failed to fetch patients")) else None)
    {
      isLoading := true;
      error := None;
      if reply.Replied? && reply.success {
        patients := reply.data;
      }
      Fail(reply, "Failed to fetch patients");
      isLoading := false;
      out := Relay(reply);
    }

    /** `fetchStatistics()`: a successful reply replaces the counters. It sets
        neither the loading flag nor the error; a thrown call is only logged. */
    method FetchStatistics(reply: Reply<Statistics>) returns (out: Outcome<Statistics>)
      modifies this
      ensures out == Relay(reply)
      ensures patients == old(patients) && selected == old(selected)
      ensures isLoading == old(isLoading) && error == old(error)
      ensures statistics == (if out.success then reply.data else old(statistics))
    {
      if reply.Replied? && reply.success {
        statistics := reply.data;
      }
      out := Relay(reply);
    }

    /** `fetchPatient(id)`: a successful reply becomes the selected patient. */
    method FetchPatient(reply: Reply<Doc>) returns (out: Outcome<Doc>)
      modifies this
      ensures out == Relay(reply)
      ensures !isLoading && patients == old(patients) && statistics == old(statistics)
      ensures selected == (if out.success then Some(reply.data) else old(selected))
      ensures error == (if reply.Thrown? then Some(ErrorText(reply.message, "Failed to fetch patient")) else None)
    {
      isLoading := true;
      error := None;
      if reply.Replied? && reply.success {
        selected := Some(reply.data);
      }
      Fail(reply, "Failed to fetch patient");
      isLoading := false;
      out := Relay(reply);
    }

    /** `createPatient(data)`: nothing is inserted locally. On success the list
        and the counters are fetched again (`list` and `stats` are those two
        replies), and the creation is reported as a success whatever they
        yield; a thrown re-fetch of the list leaves its own error behind. */
    method CreatePatient(reply: Reply<Doc>, list: Reply<seq<Doc>>, stats: Reply<Statistics>)
      returns (out: Outcome<Doc>)
      modifies this
      ensures out == Relay(reply)
      ensures !isLoading && selected == old(selected)
      ensures out.success ==>
        patients == (if list.Replied? && list.success then list.data else old(patients))
        && statistics == (if stats.Replied? && stats.success then stats.data else old(statistics))
        && error == (if list.Thrown? then Some(ErrorText(list.message, "Failed to fetch patients")) else None)
      ensures !out.success ==>
        patients == old(patients) && statistics == old(statistics)
        && error == (if reply.Thrown? then Some(ErrorText(reply.message, "Failed to create patient")) else None)
    {
      isLoading := true;
      error := None;
      if reply.Replied? && reply.success {
        var _ := FetchPatients(list);
        var _ := FetchStatistics(stats);
      }
      Fail(reply, "Failed to create patient");
      isLoading := false;
      out := Relay(reply);
    }

    /** `updatePatient(id, data)`: every cached patient with that id becomes the
        server's copy, and so does the selected patient when it has that id. */
    method UpdatePatient(id: string, reply: Reply<Doc>) returns (out: Outcome<Doc>)
      modifies this
      ensures out == Relay(reply)
      ensures !isLoading && statistics == old(statistics)
      ensures out.success ==>
        patients == ReplaceById(old(patients), id, reply.data, IdOf) && selected == Reselect(old(selected), id, reply.data)
      ensures !out.success ==> patients == old(patients) && selected == old(selected)
      ensures error == (if reply.Thrown? then Some(ErrorText(reply.message, "Failed to update patient")) else None)
    {
      isLoading := true;
      error := None;
      if reply.Replied? && reply.success {
        patients := ReplaceById(patients, id, reply.data, IdOf);
        selected := Reselect(selected, id, reply.data);
      }
      Fail(reply, "Failed to update patient");
      isLoading := false;
      out := Relay(reply);
    }

    /** `deletePatient(id)`: every cached patient with that id is dropped, the
        selection is cleared when it has that id, and the counters are fetched
        again (`stats` is that reply). Success carries no data. */
    method DeletePatient(id: string, reply: Reply<()>, stats: Reply<Statistics>) returns (out: Outcome<()>)
      modifies this
      ensures out == Relay(reply).(data := None)
      ensures !isLoading
      ensures out.success ==>
        patients == RemoveById(old(patients), id, IdOf) && selected == Deselect(old(selected), id)
        && statistics == (if stats.Replied? && stats.success then stats.data else old(statistics))
      ensures !out.success ==> patients == old(patients) && selected == old(selected) && statistics == old(statistics)
      ensures error == (if reply.Thrown? then Some(ErrorText(reply.message, "Failed to delete patient")) else None)
    {
      isLoading := true;
      error := None;
      if reply.Replied? && reply.success {
        patients := RemoveById(patients, id, IdOf);
        selected := Deselect(selected, id);
        var _ := FetchStatistics(stats);
      }
      Fail(reply, "Failed to delete patient");
      isLoading := false;
      out := Relay(reply).(data := None);
    }

    /** `setSelectedPatient`, exposed to the screens as is. */
    method SetSelected(doc: Option<Doc>)
      modifies this
      ensures selected == doc
      ensures patients == old(patients) && statistics == old(statistics)
      ensures isLoading == old(isLoading) && error == old(error)
    {
      selected := doc;
    }
  }
}
