/** The idempotency table: one record per user and key, and what a request does with it. */
module Idempotency {
  import opened Tables
  import Utf8

  const PENDING_TTL_SECONDS := 60
  const COMPLETED_TTL_SECONDS := 24 * 3600

  /** What the key is bound to; the fingerprint is the digest of the request body. */
  datatype Attempt = Attempt(verb: string, path: string, fingerprint: string)

  /** Headers are a list of pairs, so repeated names survive. */
  datatype Response = Response(status: int, headers: seq<(string, string)>, body: seq<Utf8.Byte>)

  datatype Status =
    | Pending
    | Completed(code: int, headers: seq<(string, string)>, body: seq<int>, completedAt: int)

  datatype Record = Record(id: nat, attempt: Attempt, createdAt: int, status: Status)

  /** How the router ended. */
  datatype Outcome = Returned(response: Response) | Failed

  datatype Reply = Own(response: Response) | Cached(response: Response) | InProgress | KeyConflict | BodyMismatch | Raised

  /** mark_completed keeps status, headers and decoded body. */
  function Kept(r: Response, now: int): Status {
    Completed(r.status, r.headers, Utf8.Decode(r.body), now)
  }

  /** build_cached_response */
  function Rebuilt(code: int, headers: seq<(string, string)>, body: seq<int>): Response
    requires Utf8.Scalars(body)
  {
    Response(if code == 0 then 200 else code, headers, Utf8.Encode(body))
  }

  ghost predicate RecordFits(r: Record) {
    r.status.Completed? ==> Utf8.Scalars(r.status.body)
  }

  /** The conflict branches of process_acquire, on what the lookup found. */
  function Answer(existing: Option<Record>, a: Attempt): Reply
    requires existing.Some? ==> RecordFits(existing.value)
  {
    if existing.None? then InProgress
    else
      var r := existing.value;
      if r.attempt.verb != a.verb || r.attempt.path != a.path then KeyConflict
      else if r.attempt.fingerprint != a.fingerprint then BodyMismatch
      else
        match r.status
        case Completed(code, headers, body, _) => Cached(Rebuilt(code, headers, body))
        case Pending => InProgress
  }

  predicate Expired(r: Record, now: int) {
    match r.status
    case Pending => r.createdAt < now - PENDING_TTL_SECONDS
    case Completed(_, _, _, at) => at < now - COMPLETED_TTL_SECONDS
  }

  /** A record outlives a cleanup: a COMPLETED one for a day after its completion, a PENDING one for a minute
      after its creation. */
  predicate Lasting(r: Record, now: int) {
    if r.status.Completed? then now - r.status.completedAt <= 86400 else now - r.createdAt <= 60
  }

  /** The response as a later request gets it back. */
  function Replayed(r: Response): Response {
    Rebuilt(r.status, r.headers, Utf8.Decode(r.body))
  }

  /** A replay is the response itself exactly when it has a status and its body is text; else only what is
      missing differs: status 0 comes back as 200, and of the body only what is no text. */
  lemma ReplayIsExactlyWhen(r: Response)
    ensures Replayed(r).headers == r.headers && Replayed(r).status == if r.status == 0 then 200 else r.status
    ensures Utf8.Decode(Replayed(r).body) == Utf8.Decode(r.body)
    ensures Replayed(r) == r <==>
            r.status != 0 && exists t :: Utf8.Scalars(t) && r.body == Utf8.Encode(t)
  {
    Utf8.BodySurvivesExactlyWhenText(r.body);
    Utf8.EncodedTextDecodes(Utf8.Decode(r.body));
  }

  // ---- one request, start to end ----

  /** What a request leaves under its key and answers, when no other holds the key. */
  function Served(existing: Option<Record>, a: Attempt, id: nat, outcome: Outcome, now: int): (Option<Record>, Reply)
    requires existing.Some? ==> RecordFits(existing.value)
  {
    if existing.Some? then (existing, Answer(existing, a))
    else
      match outcome
      case Failed => (None, Raised)
      case Returned(r) =>
        if r.status >= 500 then (None, Own(r)) else (Some(Record(id, a, now, Kept(r, now))), Own(r))
  }

  /** A retry of a request that completed gets its response back and leaves the record alone. */
  lemma RetryIsReplayed(a: Attempt, id: nat, r: Response, now: int, id': nat, other: Outcome, later: int)
    requires r.status < 500
    ensures var first := Served(None, a, id, Returned(r), now);
            Served(first.0, a, id', other, later) == (first.0, Cached(Replayed(r)))
  {
  }

  type Key = (nat, string)

  /** The table behind one database session: `view` is the session's, `rows` what is committed. */
  class Table {
    var rows: map<Key, Record>
    var view: map<Key, Record>

    constructor ()
      ensures rows == view == map[]
    {
      rows, view := map[], map[];
    }

    ghost predicate Valid()
      reads this
    {
      (forall k :: k in rows ==> RecordFits(rows[k])) && (forall k :: k in view ==> RecordFits(view[k]))
    }

    function At(table: map<Key, Record>, k: Key): Option<Record> {
      if k in table then Some(table[k]) else None
    }

    /** INSERT ... ON CONFLICT DO NOTHING */
    method TryAcquire(k: Key, a: Attempt, id: nat, now: int) returns (acquired: bool)
      modifies this`view
      ensures acquired <==> k !in old(view)
      ensures view == if acquired then old(view)[k := Record(id, a, now, Pending)] else old(view)
    {
      acquired := k !in view;
      if acquired {
        view := view[k := Record(id, a, now, Pending)];
      }
    }

    method Find(k: Key) returns (r: Option<Record>)
      ensures r == At(view, k)
    {
      r := At(view, k);
    }

    /** UPDATE by key, whatever the status. */
    method MarkCompleted(k: Key, status: int, headers: seq<(string, string)>, body: seq<int>, now: int)
      modifies this`view
      ensures view == if k in old(view)
                      then old(view)[k := old(view)[k].(status := Completed(status, headers, body, now))] else old(view)
    {
      if k in view {
        view := view[k := view[k].(status := Completed(status, headers, body, now))];
      }
    }

    /** DELETE by key, but only a PENDING row. */
    method Release(k: Key)
      modifies this`view
      ensures view == if k in old(view) && old(view)[k].status.Pending? then old(view) - {k} else old(view)
    {
      if k in view && view[k].status.Pending? {
        view := view - {k};
      }
    }

    /** Both DELETEs of the hourly job. */
    method CleanupExpired(now: int) returns (pending: nat, completed: nat)
      modifies this`view
      ensures forall k :: k in view <==> k in old(view) && Lasting(old(view)[k], now)
      ensures forall k :: k in view ==> view[k] == old(view)[k]
      ensures pending == |set k | k in old(view) && old(view)[k].status.Pending? && !Lasting(old(view)[k], now)|
      ensures completed == |set k | k in old(view) && old(view)[k].status.Completed? && !Lasting(old(view)[k], now)|
    {
      var stale := set k | k in view && view[k].status.Pending? && view[k].createdAt < now - PENDING_TTL_SECONDS;
      assert stale == set k | k in view && view[k].status.Pending? && !Lasting(view[k], now);
      view := view - stale;
      var worn := set k | k in view && view[k].status.Completed? && view[k].status.completedAt < now - COMPLETED_TTL_SECONDS;
      assert worn == set k | k in old(view) && old(view)[k].status.Completed? && !Lasting(old(view)[k], now);
      view := view - worn;
      pending, completed := |stale|, |worn|;
    }

    method Begin()
      modifies this`view
      ensures view == rows
    {
      view := rows;
    }

    method Commit()
      modifies this`rows
      ensures rows == view
    {
      rows := view;
    }

    /** process_acquire: None when the key was acquired, or else the answer. */
    method ProcessAcquire(k: Key, a: Attempt, id: nat, now: int) returns (answer: Option<Reply>)
      requires Valid()
      modifies this`view
      ensures Valid()
      ensures answer.None? <==> k !in old(view)
      ensures answer.None? ==> view == old(view)[k := Record(id, a, now, Pending)]
      ensures answer.Some? ==> view == old(view) && answer.value == Answer(Some(old(view)[k]), a)
    {
      var acquired := TryAcquire(k, a, id, now);
      if acquired {
        return None;
      }
      var existing := Find(k);
      if existing.None? {
        return Some(InProgress);
      }
      var r := existing.value;
      if r.attempt.verb != a.verb || r.attempt.path != a.path {
        return Some(KeyConflict);
      }
      if r.attempt.fingerprint != a.fingerprint {
        return Some(BodyMismatch);
      }
      if r.status.Completed? {
        return Some(Cached(Rebuilt(r.status.code, r.status.headers, r.status.body)));
      }
      answer := Some(InProgress);
    }

    /** dispatch, for a request that meets no other under its key while it runs. */
    method Dispatch(k: Key, a: Attempt, id: nat, outcome: Outcome, now: int) returns (reply: Reply)
      requires Valid()
      modifies this
      ensures Valid()
      ensures var served := Served(At(old(rows), k), a, id, outcome, now);
              At(rows, k) == served.0 && reply == served.1
      ensures forall other :: other != k ==> At(rows, other) == At(old(rows), other)
    {
      Begin();
      var answer := ProcessAcquire(k, a, id, now);
      if answer.Some? {
        return answer.value;
      }
      match outcome {
        case Failed =>
          Release(k);
          Commit();
          reply := Raised;
        case Returned(response) =>
          if response.status >= 500 {
            Release(k);
          } else {
            MarkCompleted(k, response.status, response.headers, Utf8.Decode(response.body), now);
          }
          Commit();
          reply := Own(response);
      }
    }
  }
}
