/** What the model keeps of the document store's own behaviour. */
module Firestore {
  /** The store's rejection of an update to a document that does not exist. */
  const NoDocumentToUpdate := "No document to update"

  /** `ids` lists the documents of a collection snapshot: every document
      exactly once, in the order the snapshot yields them. */
  ghost predicate Enumerates<D>(collection: map<string, D>, ids: seq<string>)
  {
    && (forall i, j :: 0 <= i < j < |ids| ==> ids[i] != ids[j])
    && (forall id :: id in ids <==> id in collection)
  }
}
