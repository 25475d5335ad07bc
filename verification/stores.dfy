/**
 * The two stores as mutable objects. `KvStore` is the key-value namespace:
 * `invites[id]` is the value under key `invite:<id>` and `responses[id]` the
 * value under `response:<id>`. `Database` holds the relational tables.
 */
module Stores {
  import opened Records

  /** What `CloudflareKV.list` gave for a prefix: the ids under it, or the message it threw. */
  datatype Listing = Listed(keys: seq<string>) | ListFailed(message: string)

  class KvStore {
    var invites: map<string, Invite>
    var responses: map<string, Response>

    constructor (invites: map<string, Invite>, responses: map<string, Response>)
      ensures this.invites == invites && this.responses == responses
    {
      this.invites := invites;
      this.responses := responses;
    }

    /** `put("invite:" + id, inv)`. */
    method PutInvite(id: string, inv: Invite)
      modifies this
      ensures invites == old(invites)[id := inv] && responses == old(responses)
    {
      invites := invites[id := inv];
    }

    /** `put("response:" + id, r)`. */
    method PutResponse(id: string, r: Response)
      modifies this
      ensures responses == old(responses)[id := r] && invites == old(invites)
    {
      responses := responses[id := r];
    }
  }

  class Database {
    var invites: map<string, DbInvite>
    var responses: map<string, DbResponse>

    constructor (invites: map<string, DbInvite>, responses: map<string, DbResponse>)
      ensures this.invites == invites && this.responses == responses
    {
      this.invites := invites;
      this.responses := responses;
    }
  }
}
