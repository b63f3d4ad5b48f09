# Agent-run routes of the CodeGen project manager, modelled in Dafny

The backend API of the CodeGen project manager (`backend/api_routes.py`) does more than route requests.
It also talks to a remote code-generation service that executes "agent runs". The sequential logic
around that service is modelled here and proved against reference definitions:

- **Plan extraction** (`extract_plan_from_logs`). A two-state scan over an agent run's log lines. A
  line mentioning "implementation plan" switches collection on. Non-blank lines are collected, and the
  first whitespace-only line stops the scan. The result is the collected lines joined by newlines, or a
  fixed four-phase template when nothing was collected.
- **Pull-request URL extraction** (`extract_pr_url_from_logs`). Each log line that mentions
  "pull request" (any letter case) and names `https://github.com` is searched, in order, for the
  pattern `https://github\.com/[^/]+/[^/]+/pull/\d+`; the answer is the match in the first line
  that passes both tests and holds a match. A hand-written matcher (`PrUrlMatch`) stands in for the
  regular-expression engine and is proved sound and complete for that one pattern.
- **Monitoring an agent run** (`monitor_agent_run_for_pr`). At most sixty status fetches. A pending
  status or a raised fetch costs one attempt. Once the service client is built, the monitor
  announces exactly one event: created with the URL, failed without a PR, run failed, or timeout.
  When building the client raises (its settings are missing), the task ends before any fetch and
  announces nothing.
- **Waiting for a plan** (the wait loop of `create_plan`). A status fetch every five seconds for up
  to two minutes, so at most 24 fetches. A plan is built from the logs only when the last status
  fetched is "completed".
- **Subscription bookkeeping** (`ConnectionManager` and the `subscribe_pr_events` handler). A class
  holds the open sockets, the subscription dictionary (with its insertion order, which is the order a
  dictionary iterates in) and a record of every attempted send. `disconnect` removes entries, and
  `broadcast_pr_event` sends only to subscriptions whose project and requirement both match.

The remote service is an oracle `poll: nat -> Poll`: `poll(k)` is its answer to the k-th status
fetch. A "completed" answer carries the logs fetched right after it. A fetch of those logs that
raises counts as a raised fetch, which has the same effect in both loops. The creation of the agent
run in `create_plan` is a parameter `createdRun: Option<string>` (`None` when the call raised).

Modules: `Wrappers` (Option, Result), `Seqs` (first-index search, filtering, the generic two-state
scan, `list.remove`), `Text` (Python's `isspace` set, ASCII lower-casing, substring search, `join`),
`LogExtract` (plan extraction), `PrUrlMatch` (the pattern matcher and `re.search`), `PrUrlExtract`
(URL extraction), `Polling` (the two polling loops) and `Connections` (the connection manager).

## Model

| member | source | states |
|---|---|---|
| LogExtract.ExtractPlanFromLogs | backend/api_routes.py:537-574 | The scanning loop returns exactly `PlanText(logs)`: the lines between the first marker line and the first blank line after it, marker lines dropped, joined by newlines; the default template when no line is kept |
| LogExtract.PlanLinesComeFromSection | backend/api_routes.py:542-548 | Every kept line is non-blank, is not a marker line, and comes after the first marker line; if a line is kept, a marker line exists |
| LogExtract.PlanIgnoresPrelude | backend/api_routes.py:542-545 | Prepending any marker-free lines leaves the extracted plan unchanged, so nothing before the first marker line reaches the plan |
| LogExtract.PlanIgnoresAfterBlank | backend/api_routes.py:545-548 | Once a blank line follows the first marker line, appending further lines leaves the plan unchanged: the scan stops at that blank line |
| LogExtract.PlanTextIsTemplateIffNothingKept | backend/api_routes.py:550-574 | The plan is never empty, and it equals the default template if and only if no line was kept |
| LogExtract.TemplateStartsWithHeading | backend/api_routes.py:554-574 | The default template is longer than its first line `# Implementation Plan`, starts with it, and has no newline within it |
| LogExtract.HeadingIsMarker | backend/api_routes.py:543-554 | A line starting with the template heading contains "implementation plan" once lower-cased, so it would be taken as a marker line |
| LogExtract.MarkerIsNotBlank | backend/api_routes.py:543-547 | A marker line is never whitespace-only, so the scan's first branch and its blank-line branch never compete |
| PrUrlMatch.MatchAtIsPrUrl | backend/api_routes.py:196 | Soundness: a match at position i is `https://github.com/<owner>/<repo>/pull/<number>` with non-empty, slash-free owner and repository and a non-empty digit number, and no digit follows it |
| PrUrlMatch.MatchAtFindsPrUrl | backend/api_routes.py:196 | Completeness: wherever such a URL starts, the matcher matches, and its match reaches at least the end of that URL |
| PrUrlMatch.MatchAtIff | backend/api_routes.py:196 | The matcher succeeds at exactly the positions where a pull-request URL starts |
| PrUrlMatch.SearchFromLeftmost | backend/api_routes.py:196 | The search skips no position where the pattern matches |
| PrUrlMatch.SearchPrUrlNoneIff | backend/api_routes.py:196-197 | `re.search` finds nothing if and only if no pull-request URL occurs anywhere in the text |
| PrUrlMatch.SearchPrUrlFinds | backend/api_routes.py:196-198 | `group(0)` is the leftmost pull-request URL in the text, with its whole digit run |
| PrUrlMatch.NoPrUrlBefore | backend/api_routes.py:196 | No pull-request URL starts before the match `re.search` returns |
| PrUrlExtract.ExtractPrUrlFromLogs | backend/api_routes.py:190-199 | The loop with early return gives exactly `PrUrlFromLogs(logs)`: the match in the first line that passes both guards and holds a match, else `None` |
| PrUrlExtract.HostGuardRedundant | backend/api_routes.py:193-196 | The `"https://github.com" in log_entry` guard follows from a match, since every match begins with it |
| PrUrlExtract.YieldsIffCarries | backend/api_routes.py:193-197 | A line yields a URL if and only if it mentions "pull request" in any letter case and holds a pull-request URL |
| PrUrlExtract.PrUrlFromLogsNoneIff | backend/api_routes.py:190-199 | The result is `None` if and only if no line both mentions a pull request and holds a URL |
| PrUrlExtract.PrUrlFromLogsFound | backend/api_routes.py:192-198 | A returned URL has the pattern's shape and occurs in the first line that mentions a pull request and holds a URL. It is the leftmost URL in that line, and no digit follows it |
| PrUrlExtract.PrUrlFromLogsNonEmpty | backend/api_routes.py:146 | A returned URL is longer than `https://github.com/`, so the truthiness test `if pr_url:` is the same as the result being present |
| Polling.MonitorAgentRunForPr | backend/api_routes.py:130-188 | When the client cannot be built (line 132, outside the `try`), no fetch and no event. Otherwise between 1 and 60 status fetches, equal to `MonitorFetches(poll)`; exactly one event is emitted, and it is `MonitorEvent(poll)` |
| Polling.MonitorStopsAtFirstEnd | backend/api_routes.py:136-180 | Pending and raised answers each cost one attempt: the monitor stops on the fetch of the first answer that completes or fails the run, and then does not time out |
| Polling.MonitorTimesOutIff | backend/api_routes.py:182-188 | The timeout event is emitted if and only if none of the first 60 answers completes or fails the run, and then all 60 fetches were made |
| Polling.MonitorCreatesIff | backend/api_routes.py:141-154 | A "created" event is emitted if and only if, within 60 fetches, the first answer that completes or fails the run is a completion whose logs yield a URL; the event's URL is that one |
| Polling.MonitorRunFailsIff | backend/api_routes.py:164-171 | The "Implementation failed" event is emitted if and only if, within 60 fetches, the first answer that completes or fails the run is a failure |
| Polling.CreatePlan | backend/api_routes.py:339-370 | At most `120 / 5` = 24 status fetches, equal to `PlanFetches`; the answer is `PlanOutcome`: a failure if creating the run or a fetch raised, a failure when the last status is not "completed", else the plan |
| Polling.CreatePlanSucceedsIff | backend/api_routes.py:346-368 | A plan is returned if and only if the run was created and the first non-pending answer within 24 fetches is a completion. The plan then holds that completion's extracted plan text (never empty) and status "created", and its id and agent-run id are both the run's id |
| Polling.CreatePlanTimesOut | backend/api_routes.py:343-351 | A run still pending on every fetch makes the call fail after exactly 24 fetches |
| Connections.FindConnectionFinds | backend/api_routes.py:66-67 | `next(...)` finds no socket if and only if no open socket has the id; otherwise it finds the first open socket with that id |
| Connections.OnlyMatchingSubscribersReceive | backend/api_routes.py:62-73 | Every send of a broadcast carries the broadcast's message. It goes to an open socket whose id is subscribed, with a subscription whose project and requirement both equal the event's |
| Connections.EveryMatchingSubscriberReceives | backend/api_routes.py:62-73 | Every subscription whose project and requirement both match and whose socket is open receives the message, on the first open socket with its id |
| Connections.DeliveriesBound | backend/api_routes.py:62-73 | A broadcast attempts at most one send per subscription |
| Connections.DroppedSubscriptionLeavesOrder | backend/api_routes.py:45-46 | Deleting an id from the dictionary and from its insertion order keeps the order duplicate-free and listing exactly the remaining keys |
| Connections.ConnectionManager.constructor | backend/api_routes.py:34-36 | A new manager has no connections, no subscriptions and no sends |
| Connections.ConnectionManager.Connect | backend/api_routes.py:38-41 | The accepted socket is appended to the open connections; nothing else changes |
| Connections.ConnectionManager.Disconnect | backend/api_routes.py:43-48 | The first occurrence of the socket is removed (one copy fewer in the multiset; unchanged if absent). The id's subscription is deleted and all others stay as they were. The insertion order drops exactly that id and keeps the others in their order, and no send is made |
| Connections.ConnectionManager.Subscribe | backend/api_routes.py:113-117 | The connection's subscription is set. A new id goes to the end of the iteration order, and an existing id keeps its place; connections and sends are unchanged |
| Connections.ConnectionManager.BroadcastPrEvent | backend/api_routes.py:53-73 | The recorded sends grow by exactly `Deliveries(...)`, the matching subscriptions' open sockets in dictionary order; connections and subscriptions are unchanged |
| Seqs.RemoveFirstAt | backend/api_routes.py:45 | `list.remove` drops exactly the first occurrence and keeps the order of the rest |
| Seqs.RemoveFirstAbsent | backend/api_routes.py:44-45 | Removing an element that does not occur changes nothing |
| Seqs.RemoveFirstMultiset | backend/api_routes.py:45 | `list.remove` takes one copy of the element out of the list's multiset of elements, and nothing else |

## Left out

- Network I/O is not modelled: the calls to the code-generation service, WebSocket accept, send and receive, and JSON encoding and decoding. The service is an oracle of answers, and a send is recorded as an attempted `Delivery`, whether or not it succeeds (the source logs and ignores send errors).
- `asyncio.sleep`, `time.sleep`, `asyncio.create_task` and the concurrency they allow are not modelled. Neither is a dictionary changing while a broadcast iterates over it.
- The `createdAt` timestamps (`datetime.now()`) are left out of events and plans.
- Polling.MonitorAgentRunForPr: the broadcaster is assumed not to raise. Inside the source's `try`, a raising broadcast would cost an attempt and the loop would go on. The emitted events are returned as a list, and `ConnectionManager.BroadcastPrEvent` models where they go.
- Polling.CreatePlan: the HTTP error detail text is not modelled; the two failure kinds only stand for the status-500 answers. The source's outer `except` catches its own `HTTPException("Failed to generate plan")` and re-raises it with `str(e)` as the detail.
- Polling.CreatePlan: the prompt text and the requirement lookup are left out, since the source does not use them beyond sending the prompt.
- Plan and URL extraction lower-case only ASCII letters, and `\d` matches only ASCII digits. Python's `str.lower()` and `re`'s Unicode `\d` cover more characters.
- The `.get("logs", [])` default is taken as already applied: a completed answer carries the log list, which may be empty.
- Connection ids are the socket identities as numbers. The source's `str(id(ws))` and `int(connection_id)` round trip is the identity on them.
- The `send_personal_message` helper, logging, the stub endpoints (projects, requirements, plan reads and updates, implementation, user, GitHub connection) and the GitHub, database and authentication services are not part of this model. `backend/codegen_client.py` is not part of this model either.
