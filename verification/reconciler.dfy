/**
 * One reconciliation cycle (`updateRecord`, main.go lines 95-143): look up the
 * public IP, list the domain's records, select the last "A" record with the
 * configured name, and send an edit only when its data differs from the IP.
 *
 * The three external services are not modelled; their answers for the cycle
 * are a parameter, and the model returns the calls the cycle issues.
 */
module Reconciler {
  import opened Wrappers
  import opened DomainRecords

  /** What each external service answers during one cycle; errors are opaque text. */
  datatype Services = Services(
    myIP: Result<string, string>,
    records: Result<seq<Record>, string>,
    edit: Result<Record, string>)

  /** The body of an edit request: only the data field is set. */
  datatype EditRequest = EditRequest(data: string)

  /** A call to an external service. */
  datatype Call =
    | LookupIP
    | ListRecords(domain: string)
    | EditRecord(domain: string, id: int, request: EditRequest)

  /**
   * The error kinds of a cycle with their context fields. The IP lookup error
   * drops the service's own error; the others keep it as `cause`.
   */
  datatype ReconcileError =
    | IPLookupFailed
    | ListFailed(domain: string, cause: string)
    | RecordNotFound(domain: string, name: string)
    | UpdateFailed(domain: string, id: int, name: string, from: string, to: string, cause: string)

  /**
   * How a cycle ends. `Skipped` and `Updated` both return Go's `nil` and differ
   * only in the line they log.
   */
  datatype Outcome =
    | Skipped(record: Record)
    | Updated(record: Record, to: string)
    | Failed(error: ReconcileError)

  /** The outcome of a cycle and the calls it issued, in order. */
  datatype Cycle = Cycle(outcome: Outcome, calls: seq<Call>)

  /** No call of the sequence is an edit. */
  predicate NoEdit(calls: seq<Call>)
  {
    forall k :: 0 <= k < |calls| ==> !calls[k].EditRecord?
  }

  /** The IP lookup and the listing succeeded. */
  predicate Listed(env: Services)
  {
    env.myIP.Ok? && env.records.Ok?
  }

  /** The selected record exists and its data differs from the resolved IP. */
  ghost predicate EditNeeded(env: Services, name: string)
  {
    && Listed(env)
    && exists i :: IsLastMatch(env.records.value, name, i) && env.records.value[i].data != env.myIP.value
  }

  /** The selected record exists and already holds the resolved IP. */
  ghost predicate InSync(env: Services, name: string)
  {
    && Listed(env)
    && exists i :: IsLastMatch(env.records.value, name, i) && env.records.value[i].data == env.myIP.value
  }

  function Reconcile(domain: string, name: string, env: Services): (c: Cycle)
    // The IP lookup always comes first; the listing second; an edit, if any, third.
    ensures 1 <= |c.calls| <= 3 && c.calls[0] == LookupIP
    ensures |c.calls| >= 2 ==> c.calls[1] == ListRecords(domain)
    ensures forall k :: 0 <= k < |c.calls| && c.calls[k].EditRecord? ==> k == 2
    ensures env.myIP.Err? <==> |c.calls| == 1
    // One edit exactly when one is needed, none otherwise.
    ensures |c.calls| == 3 <==> EditNeeded(env, name)
    ensures c.outcome.Skipped? <==> InSync(env, name)
    ensures |c.calls| == 3 ==>
              && c.calls[2].EditRecord?
              && c.calls[2].domain == domain
              && c.calls[2].request == EditRequest(env.myIP.value)
              && exists i :: IsLastMatch(env.records.value, name, i) && c.calls[2].id == env.records.value[i].id
    // Each error kind arises from exactly one failing step.
    ensures c.outcome == Failed(IPLookupFailed) <==> env.myIP.Err?
    ensures (c.outcome.Failed? && c.outcome.error.ListFailed?) <==> env.myIP.Ok? && env.records.Err?
    ensures (c.outcome.Failed? && c.outcome.error.RecordNotFound?) <==> Listed(env) && NoMatch(env.records.value, name)
    ensures (c.outcome.Failed? && c.outcome.error.UpdateFailed?) <==> EditNeeded(env, name) && env.edit.Err?
    ensures c.outcome.Updated? <==> EditNeeded(env, name) && env.edit.Ok?
  {
    match env.myIP
    case Err(_) => Cycle(Failed(IPLookupFailed), [LookupIP])
    case Ok(ip) =>
      var calls := [LookupIP, ListRecords(domain)];
      match env.records
      case Err(cause) => Cycle(Failed(ListFailed(domain, cause)), calls)
      case Ok(rs) =>
        match LastMatch(rs, name)
        case None => Cycle(Failed(RecordNotFound(domain, name)), calls)
        case Some(i) =>
          var record := rs[i];
          if record.data == ip then
            Cycle(Skipped(record), calls)
          else
            var edit := EditRecord(domain, record.id, EditRequest(ip));
            match env.edit
            case Err(cause) =>
              Cycle(Failed(UpdateFailed(domain, record.id, name, record.data, ip, cause)), calls + [edit])
            case Ok(_) =>
              Cycle(Updated(record, ip), calls + [edit])
  }

  /** A failed IP lookup ends the cycle: no listing and no edit. */
  lemma IPFailureStopsCycle(domain: string, name: string, env: Services)
    requires env.myIP.Err?
    ensures Reconcile(domain, name, env) == Cycle(Failed(IPLookupFailed), [LookupIP])
  {
  }

  /** A failed listing ends the cycle with the listing error, annotated with the domain, before any edit. */
  lemma ListFailureStopsCycle(domain: string, name: string, env: Services)
    requires env.myIP.Ok? && env.records.Err?
    ensures Reconcile(domain, name, env)
      == Cycle(Failed(ListFailed(domain, env.records.error)), [LookupIP, ListRecords(domain)])
  {
  }

  /** Without an "A" record of the configured name the cycle fails with not-found and edits nothing. */
  lemma NotFoundIssuesNoEdit(domain: string, name: string, env: Services)
    requires Listed(env) && NoMatch(env.records.value, name)
    ensures Reconcile(domain, name, env).outcome == Failed(RecordNotFound(domain, name))
    ensures NoEdit(Reconcile(domain, name, env).calls)
  {
  }

  /** When the selected record already holds the IP, the cycle succeeds without an edit. */
  lemma InSyncIsNoOp(domain: string, name: string, env: Services, i: int)
    requires Listed(env) && IsLastMatch(env.records.value, name, i)
    requires env.records.value[i].data == env.myIP.value
    ensures Reconcile(domain, name, env) == Cycle(Skipped(env.records.value[i]), [LookupIP, ListRecords(domain)])
    ensures NoEdit(Reconcile(domain, name, env).calls)
  {
  }

  /**
   * When the selected record's data differs from the IP, exactly one edit is
   * sent: to that record's id, setting the data to the IP and nothing else. Its
   * failure is reported with the domain, id, name, old and new data.
   */
  lemma OutOfSyncEditsOnce(domain: string, name: string, env: Services, i: int)
    requires Listed(env) && IsLastMatch(env.records.value, name, i)
    requires env.records.value[i].data != env.myIP.value
    ensures var r, ip := env.records.value[i], env.myIP.value;
      && Reconcile(domain, name, env).calls
         == [LookupIP, ListRecords(domain), EditRecord(domain, r.id, EditRequest(ip))]
      && (env.edit.Ok? ==> Reconcile(domain, name, env).outcome == Updated(r, ip))
      && (env.edit.Err? ==>
            Reconcile(domain, name, env).outcome
            == Failed(UpdateFailed(domain, r.id, name, r.data, ip, env.edit.error)))
  {
  }

  /** A record the cycle reports as skipped or updated is the last "A" record with the configured name. */
  lemma SelectedIsLastMatch(domain: string, name: string, env: Services)
    requires Reconcile(domain, name, env).outcome.Skipped? || Reconcile(domain, name, env).outcome.Updated?
    ensures Listed(env)
    ensures exists i ::
              && IsLastMatch(env.records.value, name, i)
              && env.records.value[i] == Reconcile(domain, name, env).outcome.record
    ensures Matches(Reconcile(domain, name, env).outcome.record, name)
  {
  }

  /** The services of a cycle that runs against the provider state left by an edit. */
  function AfterEdit(env: Services, edit: Call): (env': Services)
    requires edit.EditRecord? && env.records.Ok?
    ensures env'.myIP == env.myIP && env'.edit == env.edit && env'.records.Ok?
  {
    env.(records := Ok(ApplyEdit(env.records.value, edit.id, edit.request.data)))
  }

  /**
   * Idempotence: once the provider applies the edit a cycle sent, a second
   * cycle with the same IP selects the same record and sends no edit.
   */
  lemma Idempotent(domain: string, name: string, env: Services)
    requires |Reconcile(domain, name, env).calls| == 3
    ensures var c := Reconcile(domain, name, env);
      var c' := Reconcile(domain, name, AfterEdit(env, c.calls[2]));
      && c'.outcome.Skipped?
      && c'.outcome.record.id == c.calls[2].id
      && c'.calls == [LookupIP, ListRecords(domain)]
  {
  }

  /** The record "home" of example.com holds 1.2.3.4, with id 42. */
  const Home: Record := Record(42, "home", "A", "1.2.3.4")

  /** Two "A" records named "home" (ids 42, then 7) followed by an "AAAA" record of that name. */
  const TwoHomes: seq<Record> := [Home, Home.(id := 7, data := "1.1.1.1"), Record(9, "home", "AAAA", "::1")]

  /** Worked examples: an unchanged IP, a changed IP, and two matching records. */
  lemma Scenarios()
    ensures Reconcile("example.com", "home", Services(Ok("1.2.3.4"), Ok([Home]), Err("unused")))
      == Cycle(Skipped(Home), [LookupIP, ListRecords("example.com")])
    ensures Reconcile("example.com", "home", Services(Ok("5.6.7.8"), Ok([Home]), Ok(Home.(data := "5.6.7.8"))))
      == Cycle(Updated(Home, "5.6.7.8"),
               [LookupIP, ListRecords("example.com"), EditRecord("example.com", 42, EditRequest("5.6.7.8"))])
    ensures Reconcile("example.com", "home", Services(Ok("5.6.7.8"), Ok(TwoHomes), Ok(Home))).calls
      == [LookupIP, ListRecords("example.com"), EditRecord("example.com", 7, EditRequest("5.6.7.8"))]
  {
    assert IsLastMatch(TwoHomes, "home", 1);
    LastMatchUnique(TwoHomes, "home", 1, LastMatch(TwoHomes, "home").value);
  }
}
