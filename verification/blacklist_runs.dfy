/** The blacklist over whole runs of its own calls. */
module BlacklistRuns {
  import opened TokenManager

  datatype Op = Add(id: string, expiration: int) | Ask(id: string) | Clean

  datatype Event = Event(op: Op, now: int)

  function Apply(b: map<string, int>, e: Event): map<string, int> {
    match e.op
    case Add(id, expiration) => b[id := e.now + expiration]
    case Ask(id) => LookedUp(b, id, e.now)
    case Clean => CleanedList(b, e.now)
  }

  function Play(events: seq<Event>): map<string, int>
    decreases |events|
  {
    if events == [] then map[] else Apply(Play(events[..|events| - 1]), events[|events| - 1])
  }

  /** The clock does not go back. */
  predicate Ordered(events: seq<Event>) {
    forall i, j | 0 <= i < j < |events| :: events[i].now <= events[j].now
  }

  /** How long the identity was last blacklisted for, if it ever was; forgetting has no part in it. */
  function Until(events: seq<Event>, id: string): int
    requires Added(events, id)
    decreases |events|
  {
    var last := events[|events| - 1];
    if last.op.Add? && last.op.id == id then last.now + last.op.expiration else Until(events[..|events| - 1], id)
  }

  predicate Added(events: seq<Event>, id: string)
    decreases |events|
  {
    events != [] &&
    var last := events[|events| - 1];
    ((last.op.Add? && last.op.id == id) || Added(events[..|events| - 1], id))
  }

  /** Entries are what was last added, and go missing only after their time. */
  lemma {:induction false} EntriesAreKept(events: seq<Event>, id: string, now: int)
    requires Ordered(events) && (events != [] ==> events[|events| - 1].now <= now)
    ensures var b := Play(events);
      && (id in b ==> Added(events, id) && b[id] == Until(events, id))
      && (id !in b && Added(events, id) ==> Until(events, id) < now)
    decreases |events|
  {
    if events != [] {
      EntriesAreKept(events[..|events| - 1], id, events[|events| - 1].now);
    }
  }

  /**
   * After any run, with expired entries forgotten by lookups and cleanups anywhere in it, an identity is listed
   * exactly until the time it was last blacklisted for, that time included.
   */
  lemma {:induction false} ListedIff(events: seq<Event>, id: string, now: int)
    requires Ordered(events) && (events != [] ==> events[|events| - 1].now <= now)
    ensures Listed(Play(events), id, now) <==> Added(events, id) && now <= Until(events, id)
  {
    EntriesAreKept(events, id, now);
  }

  /** A cleanup leaves only entries that still count; a lookup leaves none that does not under its identity. */
  lemma {:induction false} ForgetsExpired(b: map<string, int>, id: string, now: int, other: string)
    ensures other in CleanedList(b, now) <==> other in b && b[other] >= now
    ensures other in CleanedList(b, now) ==> CleanedList(b, now)[other] == b[other]
    ensures id in LookedUp(b, id, now) <==> id in b && b[id] >= now
    ensures other != id ==>
      (other in LookedUp(b, id, now) <==> other in b) && (other in b ==> LookedUp(b, id, now)[other] == b[other])
  {}
}
