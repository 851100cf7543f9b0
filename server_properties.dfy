/**
 * What the registration transaction guarantees across calls: the folio
 * invariant, replays of a known key, the absence of conflicts in a
 * consistent database, and gap-free increasing folios over a run of
 * sequential requests.
 */
module ServerProperties {
  import opened Wrappers
  import opened JsValues
  import opened Db
  import opened Server

  /**
   * The folios of series A are pairwise distinct and none exceeds the
   * counter; idempotency keys are pairwise distinct.
   */
  predicate Consistent(t: Tables) {
    && (forall i :: 0 <= i < |t.payments| && t.payments[i].series == Series ==> t.payments[i].number <= CurrentNumber(t))
    && (forall i, j :: 0 <= i < j < |t.payments| && t.payments[i].series == Series && t.payments[j].series == Series
          ==> t.payments[i].number != t.payments[j].number)
    && (forall i, j :: 0 <= i < j < |t.payments| ==> t.payments[i].idempotencyKey != t.payments[j].idempotencyKey)
  }

  /**
   * Every request keeps the database consistent, and a created folio is
   * greater than every folio already issued in the series.
   */
  lemma RegisterPreservesConsistency(t: Tables, idk: Option<string>, body: map<string, Value>, newUuid: string, fault: Option<Step>)
    requires Consistent(t)
    ensures Consistent(Register(t, idk, body, newUuid, fault).tables)
    ensures var o := Register(t, idk, body, newUuid, fault);
            o.reply.Created? ==> forall i :: 0 <= i < |t.payments| && t.payments[i].series == Series
                                   ==> t.payments[i].number < o.reply.number
  {
    var o := Register(t, idk, body, newUuid, fault);
    if o.reply.Created? {
      var row := o.tables.payments[|t.payments|];
      assert o.tables.payments == t.payments + [row];
      AppendKeepsConsistent(t, o.tables, row);
    }
  }

  /**
   * Appending a row that collides with no stored one, under the advanced
   * counter, keeps the database consistent, and the row's folio exceeds
   * every stored folio of the series.
   */
  lemma AppendKeepsConsistent(t: Tables, after: Tables, row: PaymentRow)
    requires Consistent(t)
    requires after.payments == t.payments + [row] && !Collides(t.payments, row)
    requires row.series == Series && row.number == CurrentNumber(after) == CurrentNumber(t) + 1
    ensures Consistent(after)
    ensures forall i :: 0 <= i < |t.payments| && t.payments[i].series == Series ==> t.payments[i].number < row.number
  {
    var ps, n := after.payments, |t.payments|;
    assert forall i :: 0 <= i < n ==> ps[i] == t.payments[i];
    forall i | 0 <= i < n
      ensures ps[i].idempotencyKey != row.idempotencyKey
      ensures ps[i].series == Series ==> ps[i].number < row.number
    {
      assert !(t.payments[i].idempotencyKey == row.idempotencyKey);
    }
  }

  /** No call fails before the insert: the insert is attempted. */
  predicate ReachesInsert(t: Tables, fault: Option<Step>) {
    fault.None? || fault == Some(Commit) || (fault == Some(CreateSeries) && Series in t.ticketsConfig)
  }

  /**
   * A valid request whose key is already stored replays the stored payment's
   * uuid and folio, not a new number, and changes nothing.
   */
  lemma KnownKeyReplays(t: Tables, key: string, body: map<string, Value>, newUuid: string, fault: Option<Step>, k: nat)
    requires Consistent(t)
    requires key != "" && PaymentSchema(body) && ReachesInsert(t, fault)
    requires ResolveClient(t.clients, t.users, ParsePayment(body).value.clientUuid).Some?
    requires k < |t.payments| && t.payments[k].idempotencyKey == key
    ensures Register(t, Some(key), body, newUuid, fault)
            == Outcome(t, Replayed(t.payments[k].uuid, t.payments[k].series, t.payments[k].number))
  {
    var found := FindByKey(t.payments, key);
    var i :| 0 <= i < |t.payments| && t.payments[i] == found.value && found.value.idempotencyKey == key;
    assert i == k;
  }

  /**
   * A retry of a request that created a payment (same key, same body)
   * replays that payment's uuid and folio and leaves the database as the
   * first call left it: one row, one increment.
   */
  lemma RetryReplaysOriginal(t: Tables, key: string, body: map<string, Value>,
                             firstUuid: string, firstFault: Option<Step>,
                             retryUuid: string, retryFault: Option<Step>)
    requires Register(t, Some(key), body, firstUuid, firstFault).reply.Created?
    requires ReachesInsert(Register(t, Some(key), body, firstUuid, firstFault).tables, retryFault)
    ensures var first := Register(t, Some(key), body, firstUuid, firstFault);
            Register(first.tables, Some(key), body, retryUuid, retryFault)
            == Outcome(first.tables, Replayed(firstUuid, Series, first.reply.number))
  {
    var first := Register(t, Some(key), body, firstUuid, firstFault);
    var t1 := first.tables;
    var n := |t.payments|;
    var row := t1.payments[n];
    assert t1.payments == t.payments + [row];
    assert forall i :: 0 <= i < n ==> t.payments[i].idempotencyKey != row.idempotencyKey by {
      forall i | 0 <= i < n ensures t.payments[i].idempotencyKey != row.idempotencyKey {
        assert !(t.payments[i].idempotencyKey == row.idempotencyKey);
      }
    }
    FindByKeyAppended(t.payments, row);
    assert Admitted(Some(key), body) && BodyClient(t1, body) == BodyClient(t, body);
    assert Collides(t1.payments, Candidate(t1, Some(key), body, retryUuid)) by {
      assert t1.payments[n].idempotencyKey == key;
    }
    KnownKeyCollisionReplays(t1, Some(key), body, retryUuid, retryFault, row);
  }

  /** The request passes the header and body checks. */
  predicate Admitted(idk: Option<string>, body: map<string, Value>) {
    !MissingKey(idk) && PaymentSchema(body)
  }

  /** The client row the body names, when the join finds it. */
  function BodyClient(t: Tables, body: map<string, Value>): Option<ClientRow>
    requires PaymentSchema(body)
  {
    ResolveClient(t.clients, t.users, ParsePayment(body).value.clientUuid)
  }

  /** The payment row an admitted request with a resolving client tries to insert. */
  function Candidate(t: Tables, idk: Option<string>, body: map<string, Value>, newUuid: string): PaymentRow
    requires Admitted(idk, body) && BodyClient(t, body).Some?
  {
    NewPayment(newUuid, BodyClient(t, body).value, ParsePayment(body).value, CurrentNumber(t) + 1, idk.value)
  }

  /**
   * Whether an admitted request, with no call failing, makes call s: the
   * series row is created only when missing, the rollback before the 404
   * only for an unknown client, the insert only for a known one, and the
   * commit only after an insert without a duplicate entry.
   */
  predicate Reaches(t: Tables, idk: Option<string>, body: map<string, Value>, newUuid: string, s: Step)
    requires Admitted(idk, body)
  {
    match s
    case CreateSeries => Series !in t.ticketsConfig
    case RollbackUnknownClient => BodyClient(t, body).None?
    case InsertPayment => BodyClient(t, body).Some?
    case Commit => BodyClient(t, body).Some? && !Collides(t.payments, Candidate(t, idk, body, newUuid))
    case _ => true
  }

  /** The failing call, if any, is one the request never makes. */
  predicate Harmless(t: Tables, idk: Option<string>, body: map<string, Value>, newUuid: string, fault: Option<Step>)
    requires Admitted(idk, body)
  {
    fault.None? || !Reaches(t, idk, body, newUuid, fault.value)
  }

  /** Any call the request makes that throws (other than a duplicate entry) gives INTERNAL_ERROR and rolls back everything. */
  lemma FailingCallIsInternal(t: Tables, idk: Option<string>, body: map<string, Value>, newUuid: string, s: Step)
    requires Admitted(idk, body) && Reaches(t, idk, body, newUuid, s)
    ensures Register(t, idk, body, newUuid, Some(s)) == Outcome(t, Internal)
  {
  }

  /** A client the join does not find gives NOT_FOUND with every table as it was. */
  lemma UnknownClientIsNotFound(t: Tables, idk: Option<string>, body: map<string, Value>, newUuid: string, fault: Option<Step>)
    requires Admitted(idk, body) && BodyClient(t, body).None?
    requires Harmless(t, idk, body, newUuid, fault)
    ensures Register(t, idk, body, newUuid, fault) == Outcome(t, NotFound)
  {
  }

  /** A duplicate entry while no stored payment has the key gives CONFLICT with every table as it was. */
  lemma UnknownKeyCollisionIsConflict(t: Tables, idk: Option<string>, body: map<string, Value>, newUuid: string, fault: Option<Step>)
    requires Admitted(idk, body) && BodyClient(t, body).Some?
    requires Collides(t.payments, Candidate(t, idk, body, newUuid))
    requires FindByKey(t.payments, idk.value).None?
    requires Harmless(t, idk, body, newUuid, fault)
    ensures Register(t, idk, body, newUuid, fault) == Outcome(t, Conflict)
  {
  }

  /** A duplicate entry under a key a stored payment has replays that payment and changes nothing. */
  lemma KnownKeyCollisionReplays(t: Tables, idk: Option<string>, body: map<string, Value>, newUuid: string,
                                 fault: Option<Step>, stored: PaymentRow)
    requires Admitted(idk, body) && BodyClient(t, body).Some?
    requires Collides(t.payments, Candidate(t, idk, body, newUuid))
    requires FindByKey(t.payments, idk.value) == Some(stored)
    requires Harmless(t, idk, body, newUuid, fault)
    ensures Register(t, idk, body, newUuid, fault) == Outcome(t, Replayed(stored.uuid, stored.series, stored.number))
  {
  }

  /** An insert without a duplicate entry commits: the candidate row is stored under folio counter+1. */
  lemma InsertWithoutCollisionCreates(t: Tables, idk: Option<string>, body: map<string, Value>, newUuid: string, fault: Option<Step>)
    requires Admitted(idk, body) && BodyClient(t, body).Some?
    requires !Collides(t.payments, Candidate(t, idk, body, newUuid))
    requires Harmless(t, idk, body, newUuid, fault)
    ensures var o := Register(t, idk, body, newUuid, fault);
            && o.reply == Created(newUuid, Series, CurrentNumber(t) + 1)
            && o.tables.payments == t.payments + [Candidate(t, idk, body, newUuid)]
  {
  }

  /**
   * In a consistent database, with a payment uuid not yet in use, a request
   * never ends in CONFLICT: a duplicate entry can only come from the key,
   * and then the stored payment is found.
   */
  lemma NoConflictWhenConsistent(t: Tables, idk: Option<string>, body: map<string, Value>, newUuid: string, fault: Option<Step>)
    requires Consistent(t)
    requires forall i :: 0 <= i < |t.payments| ==> t.payments[i].uuid != newUuid
    ensures !Register(t, idk, body, newUuid, fault).reply.Conflict?
  {
  }

  /** No stored payment carries this key or this uuid. */
  predicate Unused(t: Tables, key: string, uuid: string) {
    forall i :: 0 <= i < |t.payments| ==> t.payments[i].uuid != uuid && t.payments[i].idempotencyKey != key
  }

  /**
   * The happy path: a valid request with a fresh key and payment uuid, whose
   * client resolves, and with no failing call, creates the next folio and
   * keeps the database consistent.
   */
  lemma FreshRequestCreates(t: Tables, key: string, body: map<string, Value>, newUuid: string)
    requires Consistent(t)
    requires key != "" && PaymentSchema(body)
    requires ResolveClient(t.clients, t.users, ParsePayment(body).value.clientUuid).Some?
    requires Unused(t, key, newUuid)
    ensures var o := Register(t, Some(key), body, newUuid, None);
            && o.reply == Created(newUuid, Series, CurrentNumber(t) + 1)
            && Consistent(o.tables)
  {
    var client := ResolveClient(t.clients, t.users, ParsePayment(body).value.clientUuid).value;
    var row := NewPayment(newUuid, client, ParsePayment(body).value, CurrentNumber(t) + 1, key);
    assert !Collides(t.payments, row) by {
      forall i | 0 <= i < |t.payments|
        ensures !(t.payments[i].series == row.series && t.payments[i].number == row.number)
      {
        if t.payments[i].series == Series {
          assert t.payments[i].number <= CurrentNumber(t);
        }
      }
    }
    RegisterPreservesConsistency(t, Some(key), body, newUuid, None);
  }

  /** A key and uuid unused before a creation under another key and uuid are unused after it. */
  lemma UnusedAfterCreate(t: Tables, key: string, body: map<string, Value>, newUuid: string, otherKey: string, otherUuid: string)
    requires Register(t, Some(key), body, newUuid, None).reply.Created?
    requires Unused(t, otherKey, otherUuid) && otherKey != key && otherUuid != newUuid
    ensures Unused(Register(t, Some(key), body, newUuid, None).tables, otherKey, otherUuid)
  {
    var ps := Register(t, Some(key), body, newUuid, None).tables.payments;
    assert forall i :: 0 <= i < |t.payments| ==> ps[i] == t.payments[i] by {
      assert ps[..|t.payments|] == t.payments;
    }
  }

  /**
   * A run of four requests: with the series-A counter at 5, a first request
   * under key k1 gets A-6; its retry replays A-6 without a new row; requests
   * under k2 and k3 then get A-7 and A-8.
   */
  lemma FolioScenario(t: Tables, b1: map<string, Value>, b2: map<string, Value>, b3: map<string, Value>,
                      u1: string, retryUuid: string, u2: string, u3: string)
    requires Consistent(t) && CurrentNumber(t) == 5
    requires PaymentSchema(b1) && PaymentSchema(b2) && PaymentSchema(b3)
    requires ResolveClient(t.clients, t.users, ParsePayment(b1).value.clientUuid).Some?
    requires ResolveClient(t.clients, t.users, ParsePayment(b2).value.clientUuid).Some?
    requires ResolveClient(t.clients, t.users, ParsePayment(b3).value.clientUuid).Some?
    requires u1 != u2 && u1 != u3 && u2 != u3
    requires Unused(t, "k1", u1) && Unused(t, "k2", u2) && Unused(t, "k3", u3)
    ensures var s1 := Register(t, Some("k1"), b1, u1, None);
            var s2 := Register(s1.tables, Some("k1"), b1, retryUuid, None);
            var s3 := Register(s2.tables, Some("k2"), b2, u2, None);
            var s4 := Register(s3.tables, Some("k3"), b3, u3, None);
            && s1.reply == Created(u1, Series, 6)
            && s2 == Outcome(s1.tables, Replayed(u1, Series, 6))
            && s3.reply == Created(u2, Series, 7)
            && s4.reply == Created(u3, Series, 8)
  {
    var s1 := Register(t, Some("k1"), b1, u1, None);
    FreshRequestCreates(t, "k1", b1, u1);
    UnusedAfterCreate(t, "k1", b1, u1, "k2", u2);
    UnusedAfterCreate(t, "k1", b1, u1, "k3", u3);
    RetryReplaysOriginal(t, "k1", b1, u1, None, retryUuid, None);
    TwoFreshRequests(s1.tables, "k2", b2, u2, "k3", b3, u3);
  }

  /** Two fresh requests in a row, under different keys and uuids, get the next two folios. */
  lemma TwoFreshRequests(t: Tables, k2: string, b2: map<string, Value>, u2: string,
                         k3: string, b3: map<string, Value>, u3: string)
    requires Consistent(t)
    requires k2 != "" && k3 != "" && k2 != k3 && u2 != u3
    requires PaymentSchema(b2) && PaymentSchema(b3)
    requires ResolveClient(t.clients, t.users, ParsePayment(b2).value.clientUuid).Some?
    requires ResolveClient(t.clients, t.users, ParsePayment(b3).value.clientUuid).Some?
    requires Unused(t, k2, u2) && Unused(t, k3, u3)
    ensures var s3 := Register(t, Some(k2), b2, u2, None);
            && s3.reply == Created(u2, Series, CurrentNumber(t) + 1)
            && Register(s3.tables, Some(k3), b3, u3, None).reply == Created(u3, Series, CurrentNumber(t) + 2)
  {
    FreshRequestCreates(t, k2, b2, u2);
    UnusedAfterCreate(t, k2, b2, u2, k3, u3);
    var s3 := Register(t, Some(k2), b2, u2, None);
    FreshRequestCreates(s3.tables, k3, b3, u3);
  }

  /** One request of a sequence: its header, body, the uuid it would mint and the failing call, if any. */
  datatype Request = Request(idk: Option<string>, body: map<string, Value>, newUuid: string, fault: Option<Step>)

  /** Requests served one after another, each seeing what the previous one committed. */
  function Serve(t: Tables, reqs: seq<Request>): (r: (Tables, seq<Reply>))
    ensures |r.1| == |reqs|
    decreases |reqs|
  {
    if reqs == [] then (t, [])
    else
      var o := Register(t, reqs[0].idk, reqs[0].body, reqs[0].newUuid, reqs[0].fault);
      var rest := Serve(o.tables, reqs[1..]);
      (rest.0, [o.reply] + rest.1)
  }

  /**
   * Over a run of sequential requests the counter never goes down, every
   * created folio lies between the counter before and after the run, and
   * created folios strictly increase in the order of the requests.
   */
  lemma {:induction false} CreatedFoliosIncrease(t: Tables, reqs: seq<Request>)
    ensures var (final, replies) := Serve(t, reqs);
            && CurrentNumber(t) <= CurrentNumber(final)
            && (forall i :: 0 <= i < |replies| && replies[i].Created? ==>
                  CurrentNumber(t) < replies[i].number <= CurrentNumber(final))
            && (forall i, j :: 0 <= i < j < |replies| && replies[i].Created? && replies[j].Created? ==>
                  replies[i].number < replies[j].number)
    decreases |reqs|
  {
    if reqs != [] {
      var o := Register(t, reqs[0].idk, reqs[0].body, reqs[0].newUuid, reqs[0].fault);
      CreatedFoliosIncrease(o.tables, reqs[1..]);
      var (final, replies) := Serve(t, reqs);
      var rest := Serve(o.tables, reqs[1..]).1;
      assert replies == [o.reply] + rest;
      assert forall i :: 1 <= i < |replies| ==> replies[i] == rest[i - 1];
    }
  }

  /**
   * When every request of the run creates a payment, the folios are exactly
   * k+1, ..., k+N for the counter k before the run: no gaps, no repeats.
   */
  lemma {:induction false} ConsecutiveFolios(t: Tables, reqs: seq<Request>)
    requires forall i :: 0 <= i < |reqs| ==> Serve(t, reqs).1[i].Created?
    ensures forall i :: 0 <= i < |reqs| ==> Serve(t, reqs).1[i].number == CurrentNumber(t) + i + 1
    ensures CurrentNumber(Serve(t, reqs).0) == CurrentNumber(t) + |reqs|
    decreases |reqs|
  {
    if reqs != [] {
      var o := Register(t, reqs[0].idk, reqs[0].body, reqs[0].newUuid, reqs[0].fault);
      var (final, replies) := Serve(t, reqs);
      var (restFinal, rest) := Serve(o.tables, reqs[1..]);
      assert final == restFinal && replies == [o.reply] + rest;
      assert o.reply == replies[0];
      assert forall i :: 0 <= i < |rest| ==> rest[i] == replies[i + 1];
      ConsecutiveFolios(o.tables, reqs[1..]);
      assert CurrentNumber(o.tables) == CurrentNumber(t) + 1;
      forall i | 0 <= i < |reqs| ensures replies[i].number == CurrentNumber(t) + i + 1 {
        if i > 0 {
          assert replies[i] == rest[i - 1];
        }
      }
    }
  }
}
