/**
 * The admin route app/api/admin/responses/route.ts: `GET` lists every stored
 * response newest first.
 */
module AdminResponses {
  import opened Records
  import opened Stores
  import opened RecordLists

  const MSG_FETCH_FAILED: string := "Failed to fetch responses"

  /** `GET`: `fetchFails` are the ids whose `get` throws. */
  function ListResponses(responses: map<string, Response>, list: Listing, fetchFails: set<string>)
    : (reply: ListReply<Response>)
    ensures list.ListFailed? ==> reply == ServerError(MSG_FETCH_FAILED, list.message)
    ensures list == Listed([]) ==> reply == Records([])
  {
    ListRecords(responses, list, fetchFails, (r: Response) => r.created_at, MSG_FETCH_FAILED)
  }

  /**
   * A listing that did not throw returns the responses of the listed ids that
   * are present and fetched without error, newest first, none lost and none added.
   */
  lemma ListedResponses(responses: map<string, Response>, keys: seq<string>, fetchFails: set<string>, r: Response)
    ensures var reply := ListResponses(responses, Listed(keys), fetchFails);
      && reply.Records?
      && NewestFirst(reply.items, (x: Response) => x.created_at)
      && multiset(reply.items) == multiset(Fetched(responses, keys, fetchFails))
      && (r in reply.items <==>
            exists i :: 0 <= i < |keys| && keys[i] in responses && keys[i] !in fetchFails && responses[keys[i]] == r)
  {
    ListedRecords(responses, keys, fetchFails, (x: Response) => x.created_at, MSG_FETCH_FAILED, r);
  }
}
