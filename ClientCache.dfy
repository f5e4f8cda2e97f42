/** What the two client providers (src/context/RecordContext.js and
    src/context/PatientContext.js) share: the cached server documents, the
    reply of a service call, what an operation hands back to the screen, and
    the three list updates with the `selected` document beside them. */
module ClientCache {
  import opened Js
  import opened ListOps

  /** A server document as the cache holds it: its `_id` and its other fields. */
  datatype Doc = Doc(id: string, fields: map<string, string>)

  function IdOf(d: Doc): string { d.id }

  /** A service call either throws (with its `message`, possibly undefined)
      or yields the reply body `{ success, message, data }`. */
  datatype Reply<T> = Thrown(message: Option<string>) | Replied(success: bool, message: Option<string>, data: T)

  /** What an operation returns: `{ success: true, data }` or
      `{ success: false, message }`. */
  datatype Outcome<T> = Outcome(success: bool, message: Option<string>, data: Option<T>)

  /** The value every operation returns for a reply: the data on success, the
      reply's or the thrown error's message otherwise. */
  function Relay<T>(reply: Reply<T>): (o: Outcome<T>)
    ensures o.success <==> reply.Replied? && reply.success
    ensures o.success ==> o.data == Some(reply.data) && o.message.None?
    ensures !o.success ==> o.data.None? && o.message == reply.message
  {
    match reply
    case Thrown(message) => Outcome(false, message, None)
    case Replied(success, message, data) =>
      if success then Outcome(true, None, Some(data)) else Outcome(false, message, None)
  }

  /** `error.message || fallback` */
  function ErrorText(message: Option<string>, fallback: string): (text: string)
    ensures Truthy(message) ==> text == message.value
    ensures !Truthy(message) ==> text == fallback
  {
    if Truthy(message) then message.value else fallback
  }

  /** `selected?._id === id ? replacement : selected` */
  function Reselect(selected: Option<Doc>, id: string, replacement: Doc): (r: Option<Doc>)
    ensures selected.Some? && selected.value.id == id ==> r == Some(replacement)
    ensures selected.None? || selected.value.id != id ==> r == selected
  {
    if selected.Some? && selected.value.id == id then Some(replacement) else selected
  }

  /** `selected?._id === id ? null : selected` */
  function Deselect(selected: Option<Doc>, id: string): (r: Option<Doc>)
    ensures r.Some? ==> r == selected && r.value.id != id
    ensures selected.Some? && selected.value.id != id ==> r == selected
  {
    if selected.Some? && selected.value.id == id then None else selected
  }

  /** The selected document, if any, is one of the cached documents. */
  predicate SelectionCached(docs: seq<Doc>, selected: Option<Doc>) {
    selected.None? || selected.value in docs
  }

  /** An update of a cached selection keeps it cached: a matching selection
      becomes the replacement, which now sits where the selection sat. */
  lemma UpdateKeepsSelectionCached(docs: seq<Doc>, selected: Option<Doc>, id: string, replacement: Doc)
    requires SelectionCached(docs, selected)
    ensures SelectionCached(ReplaceById(docs, id, replacement, IdOf), Reselect(selected, id, replacement))
  {
    if selected.Some? {
      var i :| 0 <= i < |docs| && docs[i] == selected.value;
      ReplaceByIdPointwise(docs, id, replacement, IdOf);
      assert ReplaceById(docs, id, replacement, IdOf)[i] == Reselect(selected, id, replacement).value;
    }
  }

  /** A deletion keeps a cached selection cached, or clears it. */
  lemma DeleteKeepsSelectionCached(docs: seq<Doc>, selected: Option<Doc>, id: string)
    requires SelectionCached(docs, selected)
    ensures SelectionCached(RemoveById(docs, id, IdOf), Deselect(selected, id))
  {
    RemoveByIdMembers(docs, id, IdOf);
  }

  /** After a deletion no cached document carries the id, and every other
      document is still cached. */
  lemma DeleteRemovesEveryCopy(docs: seq<Doc>, id: string)
    ensures forall d | d in RemoveById(docs, id, IdOf) :: d.id != id
    ensures forall d | d in docs && d.id != id :: d in RemoveById(docs, id, IdOf)
  {
    RemoveByIdMembers(docs, id, IdOf);
  }

  /** Deleting a freshly created id undoes the creation: documents prepended
      under a new id are filtered out again, and the old list is left as it was. */
  lemma CreateThenDeleteRestores(created: seq<Doc>, docs: seq<Doc>, id: string)
    requires forall i | 0 <= i < |created| :: created[i].id == id
    requires forall i | 0 <= i < |docs| :: docs[i].id != id
    ensures RemoveById(created + docs, id, IdOf) == docs
  {
    RemoveByIdAppend(created, docs, id, IdOf);
    RemoveByIdAllMatch(created, id);
    RemoveByIdAbsent(docs, id, IdOf);
  }

  lemma {:induction false} RemoveByIdAllMatch(created: seq<Doc>, id: string)
    requires forall i | 0 <= i < |created| :: created[i].id == id
    ensures RemoveById(created, id, IdOf) == []
  {
    if created != [] {
      RemoveByIdAllMatch(created[1..], id);
    }
  }
}
