# digitalocean-dyndns, modelled in Dafny

A model of the dynamic-DNS updater `digitalocean-dyndns`: at startup it checks
its configuration (API token, domain, record name, interval), then on every
tick of a fixed-interval timer it runs one reconciliation cycle. A cycle looks
up the host's public IP, lists the domain's DNS records at DigitalOcean, picks
the "A" record with the configured name (the last one, if several match), and
sends an edit that sets that record's data to the IP only when the two differ.

The external services (the IP-echo service, the provider's list and edit
calls) are not modelled. Their answers for one cycle are an input value
(`Reconciler.Services`, each a `Result`), and a cycle returns its outcome
together with the sequence of calls it issued. The provider's record list
after an accepted edit is given by `DomainRecords.ApplyEdit`, which changes the
data of the edited id and nothing else.

Modules:

- `Wrappers` — `Option` and `Result`.
- `Configuration` — the configuration, its four ordered checks, `Validate`.
- `DomainRecords` — records, the last-match selection (a recursive reference
  `LastMatch` and the program's own forward scan `FindRecord`), `ApplyEdit`.
- `Reconciler` — one cycle, `Reconcile`, and its properties, idempotence included.
- `Scheduler` — the program's action: validate, then one cycle per tick.

Notes on the model:

- Durations are integers counting nanoseconds, as Go's `time.Duration` does;
  one second is 1 000 000 000 and the default interval is one hour.
- The resolved IP is an opaque string compared by equality. The program does
  not check that the IP is an IPv4 address, so neither does the model.
- When several records match, the program keeps the last one in list order.
  This may not be a deliberate rule, but it is what the code does, and the
  model keeps it.
- A cycle that skips and a cycle that updates both return `nil` in the
  program; the model's `Outcome` tells them apart (`Skipped`, `Updated`)
  because they log different lines.
- The IP-lookup error keeps none of the service's error text (main.go:99);
  the listing and edit errors keep it as an opaque `cause`.

## Model

| member | source | states |
|---|---|---|
| `Configuration.Validate` | main.go:56-70 | No error exactly when every check passes; otherwise the reported error is a failing check and every check ordered before it (token, domain, name, interval) passes, so the first failure wins |
| `Configuration.IntervalBound` | main.go:43-70 | An interval of exactly one second is accepted, one nanosecond less is rejected with the interval error, and the one-hour default is accepted |
| `DomainRecords.LastMatch` | main.go:111-121 | Returns no index exactly when no record is an "A" record with the name; otherwise an index holding such a record with no such record after it |
| `DomainRecords.FindRecord` | main.go:111-118 | The program's front-to-back scan finds a record exactly when some record matches, and the record it keeps is the last match in list order, the one `LastMatch` selects |
| `DomainRecords.ApplyEdit` | main.go:130-133 | After an edit that sets only the data, every record keeps its id, name and type, the edited id's records hold the new data, and all other records are unchanged |
| `DomainRecords.EditKeepsSelection` | main.go:111-133 | Applying an edit to the list does not move the selected position |
| `Reconciler.Reconcile` | main.go:95-143 | The IP lookup comes first and the listing second; only the third call can be an edit; a single call exactly when the IP lookup fails; a third call exactly when the selected record's data differs from the IP, and it is an edit of that record's id in the domain carrying only the IP; a skip exactly when the data equals the IP; each error kind (IP lookup, listing, not found, update) exactly when its step fails, and an update exactly when the edit is needed and succeeds |
| `Reconciler.IPFailureStopsCycle` | main.go:97-100 | A failed IP lookup yields the IP error, with no listing and no edit |
| `Reconciler.ListFailureStopsCycle` | main.go:103-109 | A failed listing yields the listing error annotated with the domain and carrying the cause, with no edit |
| `Reconciler.NotFoundIssuesNoEdit` | main.go:119-121 | With no matching record the cycle fails with not-found, annotated with domain and name, and issues no edit |
| `Reconciler.InSyncIsNoOp` | main.go:124-127 | When the last matching record already holds the IP the cycle succeeds as a skip of that record with no edit |
| `Reconciler.OutOfSyncEditsOnce` | main.go:129-142 | When the last matching record's data differs, exactly one edit goes to its id carrying only the IP; success is an update, failure is the update error with domain, id, name, old and new data and cause |
| `Reconciler.SelectedIsLastMatch` | main.go:111-118 | A skipped or updated record is an "A" record with the configured name and the last such record in the list |
| `Reconciler.Idempotent` | main.go:111-133 | Once the provider applies the edit a cycle sent, a cycle with the same IP selects the same record id, skips, and issues no edit |
| `Reconciler.Scenarios` | main.go:95-143 | example.com/home at 1.2.3.4: the same IP gives a skip with no edit, 5.6.7.8 gives one edit of id 42; with two matching records the edit goes to the later one |
| `Scheduler.RunCycles` | main.go:77-86 | One cycle per tick, and each tick's cycle is the cycle of that tick's answers alone |
| `Scheduler.Run` | main.go:50-87 | A configuration failing a check ends with the first failing check's error and runs no cycle; a valid one runs a cycle on every tick, each independent of the others |
| `Scheduler.TicksAreIndependent` | main.go:77-86 | Two tick histories that agree at one tick produce the same cycle at that tick, whatever happened earlier |

## Left out

- Command-line and environment parsing by `urfave/cli` (main.go:22-49, 89-92): library behaviour, including how a duration string becomes a `time.Duration`; the model starts from the parsed values.
- Go's 64-bit `int` for a record's id: the id is an unbounded integer; it is only compared and copied, never computed with.
- Go's 64-bit range of `time.Duration`: the interval is an unbounded integer, which does not change the one comparison the program makes.
- OAuth2 and `godo` client construction and the HTTP calls (main.go:73-75, 103, 133): the calls' answers are inputs, not network behaviour.
- `ipinfo.MyIP()` (main.go:97): its answer is an input.
- Closing response bodies (main.go:104-106, 134-136): resource cleanup with no decision in it.
- Logging and the exact error text (main.go:71, 78, 84, 125, 140): errors are kinds with their context fields.
- The wall-clock ticker (main.go:81-82): ticks are a finite sequence of answers; timing and the endless loop are not modelled.
- The unused `ErrNoChange` variable (main.go:18).
