/** The record cache of the client (src/context/RecordContext.js,
    `RecordProvider`). Each operation takes the service reply as a parameter;
    a state setter takes effect at once. */
module RecordContext {
  import opened Js
  import opened ListOps
  import opened ClientCache

  class RecordProvider {
    var records: seq<Doc>
    var selected: Option<Doc>
    var isLoading: bool
    var error: Option<string>

    /** The initial state: no records, none selected, idle, no error. */
    constructor()
      ensures records == [] && selected.None? && !isLoading && error.None?
    {
      records := [];
      selected := None;
      isLoading := false;
      error := None;
    }

    /** The common tail of a loading operation: a thrown call records its
        message, or the fallback, as the error. */
    method Fail<T>(reply: Reply<T>, fallback: string)
      modifies this
      ensures records == old(records) && selected == old(selected) && isLoading == old(isLoading)
      ensures reply.Thrown? ==> error == Some(ErrorText(reply.message, fallback))
      ensures reply.Replied? ==> error == old(error)
    {
      if reply.Thrown? {
        error := Some(ErrorText(reply.message, fallback));
      }
    }

    /** `fetchRecords` and `fetchRecordsByPatientId`: a successful reply replaces
        the list wholesale. */
    method FetchRecords(reply: Reply<seq<Doc>>) returns (out: Outcome<seq<Doc>>)
      modifies this
      ensures out == Relay(reply)
      ensures !isLoading && selected == old(selected)
      ensures records == (if out.success then reply.data else old(records))
      ensures error == (if reply.Thrown? then Some(ErrorText(reply.message, "Failed to fetch records")) else None)
    {
      isLoading := true;
      error := None;
      if reply.Replied? && reply.success {
        records := reply.data;
      }
      Fail(reply, "Failed to fetch records");
      isLoading := false;
      out := Relay(reply);
    }

    /** `fetchRecord(id)`: a successful reply becomes the selected record; the
        list is untouched. */
    method FetchRecord(reply: Reply<Doc>) returns (out: Outcome<Doc>)
      modifies this
      ensures out == Relay(reply)
      ensures !isLoading && records == old(records)
      ensures selected == (if out.success then Some(reply.data) else old(selected))
      ensures error == (if reply.Thrown? then Some(ErrorText(reply.message, "Failed to fetch record")) else None)
    {
      isLoading := true;
      error := None;
      if reply.Replied? && reply.success {
        selected := Some(reply.data);
      }
      Fail(reply, "Failed to fetch record");
      isLoading := false;
      out := Relay(reply);
    }

    /** `createRecord(data)`: the records the server created are put in front
        of the cached ones. */
    method CreateRecord(reply: Reply<seq<Doc>>) returns (out: Outcome<seq<Doc>>)
      modifies this
      ensures out == Relay(reply)
      ensures !isLoading && selected == old(selected)
      ensures records == (if out.success then reply.data + old(records) else old(records))
      ensures error == (if reply.Thrown? then Some(ErrorText(reply.message, "Failed to create record")) else None)
    {
      isLoading := true;
      error := None;
      if reply.Replied? && reply.success {
        records := reply.data + records;
      }
      Fail(reply, "Failed to create record");
      isLoading := false;
      out := Relay(reply);
    }

    /** `updateRecord(id, data)`: every cached record with that id becomes the
        server's copy, and so does the selected record when it has that id. */
    method UpdateRecord(id: string, reply: Reply<Doc>) returns (out: Outcome<Doc>)
      modifies this
      ensures out == Relay(reply)
      ensures !isLoading
      ensures out.success ==>
        records == ReplaceById(old(records), id, reply.data, IdOf) && selected == Reselect(old(selected), id, reply.data)
      ensures !out.success ==> records == old(records) && selected == old(selected)
      ensures error == (if reply.Thrown? then Some(ErrorText(reply.message, "Failed to update record")) else None)
    {
      isLoading := true;
      error := None;
      if reply.Replied? && reply.success {
        records := ReplaceById(records, id, reply.data, IdOf);
        selected := Reselect(selected, id, reply.data);
      }
      Fail(reply, "Failed to update record");
      isLoading := false;
      out := Relay(reply);
    }

    /** `deleteRecord(id)`: every cached record with that id is dropped, and the
        selection is cleared when it has that id. Success carries no data. */
    method DeleteRecord(id: string, reply: Reply<()>) returns (out: Outcome<()>)
      modifies this
      ensures out == Relay(reply).(data := None)
      ensures !isLoading
      ensures out.success ==> records == RemoveById(old(records), id, IdOf) && selected == Deselect(old(selected), id)
      ensures !out.success ==> records == old(records) && selected == old(selected)
      ensures error == (if reply.Thrown? then Some(ErrorText(reply.message, "Failed to delete record")) else None)
    {
      isLoading := true;
      error := None;
      if reply.Replied? && reply.success {
        records := RemoveById(records, id, IdOf);
        selected := Deselect(selected, id);
      }
      Fail(reply, "Failed to delete record");
      isLoading := false;
      out := Relay(reply).(data := None);
    }

    /** `setSelectedRecord`, exposed to the screens as is. */
    method SetSelected(doc: Option<Doc>)
      modifies this
      ensures selected == doc
      ensures records == old(records) && isLoading == old(isLoading) && error == old(error)
    {
      selected := doc;
    }
  }
}
