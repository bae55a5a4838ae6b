/** Entities of the fleet router: queue entries, their tiers and their states. */
module Fleet {
  import opened Wrappers

  type Email = string

  datatype Tier = Human | Agent

  datatype Status = Waiting | Offered | Active | Left | BackedOff

  /** One offer of a slot that ran out. */
  datatype Expiry = Expiry(slot: Option<int>, at: real)

  datatype Entry = Entry(
    id: string,
    tier: Tier,
    email: Email,
    priority: int,
    enqueuedAt: real,
    status: Status,
    slot: Option<int>,
    offerExpiresAt: Option<real>,
    offerExpiries: seq<Expiry>,
    backedOffUntil: Option<real>)

  /** The sort key of the queue: higher priority first, then earlier enqueue time. */
  predicate Before(a: Entry, b: Entry)
  {
    a.priority > b.priority || (a.priority == b.priority && a.enqueuedAt <= b.enqueuedAt)
  }

  predicate InQueueOrder(s: seq<Entry>)
  {
    forall i, j :: 0 <= i < j < |s| ==> Before(s[i], s[j])
  }
}
